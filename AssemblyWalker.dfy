/**
 * The dependency walk of `GetAssembliesForType`: a depth-first closure over
 * the assemblies a root assembly references, with a visited set. A
 * reference whose `Assembly.Load` fails is skipped and the walk goes on.
 */
module AssemblyWalker {
  import opened Wrappers
  import opened Runtime
  import opened Sequences

  /** The assemblies the references of `m` load to; a reference whose load fails contributes nothing. */
  function LoadedReferences(load: map<AssemblyName, Module>, m: Module): (s: set<Module>)
    ensures s <= load.Values
  {
    set name | name in m.references && name in load :: load[name]
  }

  /** Each assembly of `p` is loaded from a reference of the one before it. */
  ghost predicate IsPath(load: map<AssemblyName, Module>, p: seq<Module>) {
    forall i :: 0 <= i < |p| - 1 ==> p[i + 1] in LoadedReferences(load, p[i])
  }

  /** `p` is a path from `source` to `target`. */
  ghost predicate IsPathBetween(load: map<AssemblyName, Module>, p: seq<Module>, source: Module, target: Module) {
    |p| > 0 && p[0] == source && p[|p| - 1] == target && IsPath(load, p)
  }

  /** `target` is reached from `source` through references that load. */
  ghost predicate Reachable(load: map<AssemblyName, Module>, source: Module, target: Module) {
    exists p :: IsPathBetween(load, p, source, target)
  }

  /** Every assembly of `s` has all its loadable references in `s`. */
  ghost predicate Closed(load: map<AssemblyName, Module>, s: set<Module>) {
    forall m :: m in s ==> LoadedReferences(load, m) <= s
  }

  lemma ReachableFromItself(load: map<AssemblyName, Module>, m: Module)
    ensures Reachable(load, m, m)
  {
    assert IsPathBetween(load, [m], m, m);
  }

  /** A loaded reference of `source` extends every path from it. */
  lemma ReachableThroughReference(load: map<AssemblyName, Module>, source: Module, next: Module, target: Module)
    requires next in LoadedReferences(load, source)
    requires Reachable(load, next, target)
    ensures Reachable(load, source, target)
  {
    var p :| IsPathBetween(load, p, next, target);
    var q := [source] + p;
    assert forall i :: 1 <= i < |q| ==> q[i] == p[i - 1];
    assert IsPathBetween(load, q, source, target);
  }

  /** A path that starts in a closed set never leaves it. */
  lemma {:induction false} PathStaysInClosedSet(load: map<AssemblyName, Module>, s: set<Module>, p: seq<Module>, k: nat)
    requires Closed(load, s) && IsPath(load, p)
    requires |p| > 0 && p[0] in s
    requires k < |p|
    ensures p[k] in s
  {
    if k > 0 {
      PathStaysInClosedSet(load, s, p, k - 1);
      assert p[k] in LoadedReferences(load, p[k - 1]);
    }
  }

  /** A closed set holding `source` holds everything reachable from it. */
  lemma ClosedSetHoldsReachable(load: map<AssemblyName, Module>, s: set<Module>, source: Module, target: Module)
    requires Closed(load, s) && source in s
    requires Reachable(load, source, target)
    ensures target in s
  {
    var p :| IsPathBetween(load, p, source, target);
    PathStaysInClosedSet(load, s, p, |p| - 1);
  }

  /**
   * `LoadReferencedAssemblies`: `HashSet.Add` leaves the walk when the
   * assembly was already visited; otherwise every reference is loaded and
   * walked in turn, a failing load being skipped. `assemblies` is the
   * visited set before the call and `result` the one after it; `expanded`
   * lists the assemblies whose references this call enumerated.
   *
   * The assemblies the call adds are exactly the ones it expanded, each
   * once; they are reachable from `assembly`, and each has all its
   * loadable references in `result`.
   */
  method LoadReferencedAssemblies(load: map<AssemblyName, Module>, assembly: Module, assemblies: set<Module>)
    returns (result: set<Module>, ghost expanded: seq<Module>)
    ensures assemblies + {assembly} <= result
    ensures assembly in assemblies ==> result == assemblies
    ensures forall m :: m in result - assemblies ==> Reachable(load, assembly, m)
    ensures forall m :: m in result - assemblies ==> LoadedReferences(load, m) <= result
    ensures forall m :: m in expanded <==> m in result - assemblies
    ensures Distinct(expanded)
    decreases load.Values + {assembly} - assemblies
  {
    var added := assembly !in assemblies;
    result := assemblies + {assembly};
    expanded := [];
    if !added {
      return;
    }
    expanded := [assembly];
    ReachableFromItself(load, assembly);

    var referencedAssembliesNames := assembly.references;
    var i := 0;
    while i < |referencedAssembliesNames|
      invariant 0 <= i <= |referencedAssembliesNames|
      invariant assemblies + {assembly} <= result
      invariant forall m :: m in result - assemblies ==> Reachable(load, assembly, m)
      invariant forall m :: m in result - assemblies - {assembly} ==> LoadedReferences(load, m) <= result
      invariant forall j :: 0 <= j < i && referencedAssembliesNames[j] in load ==>
                  load[referencedAssembliesNames[j]] in result
      invariant forall m :: m in expanded <==> m in result - assemblies
      invariant Distinct(expanded)
    {
      var loadedAssembly := Load(load, referencedAssembliesNames[i]);
      if loadedAssembly.Some? {
        var next := loadedAssembly.value;
        assert load.Values + {next} - result < load.Values + {assembly} - assemblies by {
          assert assembly in load.Values + {assembly} - assemblies;
          assert assembly !in load.Values + {next} - result;
        }
        ghost var before := result;
        ghost var more;
        result, more := LoadReferencedAssemblies(load, next, result);
        forall m | m in result - before
          ensures Reachable(load, assembly, m)
        {
          ReachableThroughReference(load, assembly, next, m);
        }
        DistinctConcat(expanded, more);
        expanded := expanded + more;
      }
      i := i + 1;
    }
    assert LoadedReferences(load, assembly) <= result;
  }

  /**
   * `GetAssembliesForType`: the walk from the root type's own assembly with
   * an empty visited set. Its result is exactly the set of assemblies
   * reachable from the root through references that load, the root
   * included; every one of them had its references enumerated exactly once.
   */
  method GetAssembliesForType(load: map<AssemblyName, Module>, mainAssembly: Module)
    returns (assemblies: set<Module>, ghost expanded: seq<Module>)
    ensures mainAssembly in assemblies
    ensures forall m :: m in assemblies <==> Reachable(load, mainAssembly, m)
    ensures Closed(load, assemblies)
    ensures forall m :: m in expanded <==> m in assemblies
    ensures Distinct(expanded)
  {
    assemblies, expanded := LoadReferencedAssemblies(load, mainAssembly, {});
    forall m | Reachable(load, mainAssembly, m)
      ensures m in assemblies
    {
      ClosedSetHoldsReachable(load, assemblies, mainAssembly, m);
    }
  }
}
