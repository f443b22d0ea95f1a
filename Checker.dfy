/**
 * `CheckAllTypesInRelatedAssembliesInternal`: build the options, the
 * reporter and the selection, probe every selected type of every selected
 * assembly, then hand the two blocks to the sinks.
 */
module Checker {
  import opened Wrappers
  import opened Runtime
  import opened Options
  import opened MessagesBuilder
  import opened DiagnosticReporter
  import opened MemberSelection
  import opened TypeProbing
  import opened Sequences
  import AssemblyWalker

  /** The selection `GetMembersByTypeByAssembly` returns: assembly -> type -> members. */
  type Selection = map<Module, map<TypeDesc, Members>>

  /**
   * The options after the caller's configuration callback, if any, has run
   * on the defaults. Without a callback every assembly and type is
   * selected, every category's members are looked up with the public,
   * instance and static flags and kept unfiltered, every failure is reported
   * and the treat-as-info rule is the default one.
   */
  function Configured(configure: Option<CheckerOptions -> CheckerOptions>): (o: CheckerOptions)
    ensures configure.None? ==> o == DefaultCheckerOptions
    ensures configure.Some? ==> o == configure.value(DefaultCheckerOptions)
    ensures configure.None? ==>
              (forall a :: AcceptsAssembly(o.sourceOptions, a)) && (forall a, t :: AcceptsType(o.sourceOptions, a, t))
    ensures configure.None? ==>
              var so := o.sourceOptions;
              && EffectiveFlags(so.commonMemberGetterBindingFlags, so.constructorsGetterBindingFlags) == {Public, Instance, Static}
              && EffectiveFlags(so.commonMemberGetterBindingFlags, so.propertiesGetterBindingFlags) == {Public, Instance, Static}
              && EffectiveFlags(so.commonMemberGetterBindingFlags, so.fieldsGetterBindingFlags) == {Public, Instance, Static}
              && EffectiveFlags(so.commonMemberGetterBindingFlags, so.eventsGetterBindingFlags) == {Public, Instance, Static}
              && EffectiveFlags(so.commonMemberGetterBindingFlags, so.methodsGetterBindingFlags) == {Public, Instance, Static}
              && so.commonMemberPredicate.None? && so.constructorPredicate.None? && so.propertyPredicate.None?
              && so.fieldPredicate.None? && so.eventPredicate.None? && so.methodPredicate.None?
    ensures configure.None? ==>
              forall e, a, t, m ::
                && AcceptsFailure(o.reportingOptions.reportErrorPredicate, e, a, t, m)
                && AcceptsFailure(o.reportingOptions.reportInfoPredicate, e, a, t, m)
    ensures configure.None? ==>
              && o.reportingOptions.treatErrorAsInfoPredicate.Some?
              && forall e, a, t, m ::
                   o.reportingOptions.treatErrorAsInfoPredicate.value(e, a, t, m) == DefaultTreatErrorAsInfo(e, a, t, m)
  {
    if configure.Some? then configure.value(DefaultCheckerOptions) else DefaultCheckerOptions
  }

  /** The assembly and type of a pair is one of the selection's. */
  predicate Selected(selection: Selection, pair: (Module, TypeDesc)) {
    pair.0 in selection && pair.1 in selection[pair.0]
  }

  /** Every pair of `order` is selected. */
  predicate AllSelected(selection: Selection, order: seq<(Module, TypeDesc)>) {
    forall k :: 0 <= k < |order| ==> Selected(selection, order[k])
  }

  /** The pairs of one assembly stand next to each other: its types are checked one after another. */
  predicate GroupedByAssembly(order: seq<(Module, TypeDesc)>) {
    forall i, j, k :: 0 <= i < j < k < |order| && order[i].0 == order[k].0 ==> order[j].0 == order[i].0
  }

  /** The types of an assembly not met before, appended as one run, keep the order grouped. */
  lemma GroupedAppendRun(order: seq<(Module, TypeDesc)>, order': seq<(Module, TypeDesc)>, assembly: Module)
    requires GroupedByAssembly(order) && order <= order'
    requires forall pair :: pair in order ==> pair.0 != assembly
    requires forall k :: |order| <= k < |order'| ==> order'[k].0 == assembly
    ensures GroupedByAssembly(order')
  {
    assert forall x :: 0 <= x < |order| ==> order'[x] == order[x] && order[x] in order;
    forall i, j, k | 0 <= i < j < k < |order'| && order'[i].0 == order'[k].0
      ensures order'[j].0 == order'[i].0
    {
      if k < |order| {
        assert order'[i] == order[i] && order'[j] == order[j] && order'[k] == order[k];
      }
    }
  }

  /**
   * `order'` is `order` followed by one run of pairs of `assembly`, one for
   * each type of `visited`.
   */
  ghost predicate ExtendedByRun(order: seq<(Module, TypeDesc)>, order': seq<(Module, TypeDesc)>, assembly: Module, visited: set<TypeDesc>) {
    && order <= order'
    && (forall k :: |order| <= k < |order'| ==> order'[k].0 == assembly)
    && (forall pair :: pair in order' <==> pair in order || (pair.0 == assembly && pair.1 in visited))
  }

  /** Appending one more type of the assembly extends the run. */
  lemma ExtendedByRunSnoc(
    order: seq<(Module, TypeDesc)>, order': seq<(Module, TypeDesc)>, assembly: Module, visited: set<TypeDesc>, t: TypeDesc)
    requires ExtendedByRun(order, order', assembly, visited)
    ensures ExtendedByRun(order, order' + [(assembly, t)], assembly, visited + {t})
  {
    var next := order' + [(assembly, t)];
    assert forall k :: 0 <= k < |order'| ==> next[k] == order'[k];
    assert forall pair :: pair in next <==> pair in order' || pair == (assembly, t);
  }

  /**
   * The outer loop's account of `order` when the assemblies of `remaining`
   * are still to be checked: none of their types is in it, every type of
   * every other selected assembly is, and each assembly's types form one run.
   */
  ghost predicate CheckedAllBut(selection: Selection, order: seq<(Module, TypeDesc)>, remaining: set<Module>) {
    && (forall pair :: pair in order ==> pair.0 !in remaining)
    && (forall a, t :: a in selection.Keys - remaining && t in selection[a] ==> (a, t) in order)
    && GroupedByAssembly(order)
  }

  /** Checking the types of one more assembly as one run moves it out of `remaining`. */
  lemma CheckedAllButStep(
    selection: Selection, order: seq<(Module, TypeDesc)>, order': seq<(Module, TypeDesc)>,
    remaining: set<Module>, assembly: Module)
    requires assembly in remaining && assembly in selection
    requires CheckedAllBut(selection, order, remaining)
    requires ExtendedByRun(order, order', assembly, selection[assembly].Keys)
    ensures CheckedAllBut(selection, order', remaining - {assembly})
  {
    GroupedAppendRun(order, order', assembly);
  }

  /** The failures of checking one selected type with its selected members. */
  function TypeFailures(rt: JitRuntime, selection: Selection, pair: (Module, TypeDesc)): seq<CapturedFailure>
    requires Selected(selection, pair)
  {
    Captured(rt, pair.0, ProbePlan(pair.1, selection[pair.0][pair.1]))
  }

  /** The failures of checking the types of `order`, one type after the other, each with its selected members. */
  function AllFailures(rt: JitRuntime, selection: Selection, order: seq<(Module, TypeDesc)>): seq<CapturedFailure>
    requires AllSelected(selection, order)
  {
    if order == [] then []
    else
      AllFailures(rt, selection, order[..|order| - 1]) + TypeFailures(rt, selection, order[|order| - 1])
  }

  /** Checking one more type appends its failures. */
  lemma AllFailuresStep(rt: JitRuntime, selection: Selection, order: seq<(Module, TypeDesc)>, pair: (Module, TypeDesc))
    requires AllSelected(selection, order) && Selected(selection, pair)
    ensures AllSelected(selection, order + [pair])
    ensures AllFailures(rt, selection, order + [pair]) == AllFailures(rt, selection, order) + TypeFailures(rt, selection, pair)
  {
    assert (order + [pair])[..|order|] == order;
  }

  /** A probe that raises yields its failure among those of the run it is part of. */
  lemma {:induction false} RaisingProbeCaptured(rt: JitRuntime, assembly: Module, probes: seq<Probe>, p: Probe)
    requires p in probes && Outcome(rt, p).Some?
    ensures CapturedFailure(Outcome(rt, p).value, assembly, p.typeInfo, p.ReportedMember()) in Captured(rt, assembly, probes)
    decreases |probes|
  {
    var n := |probes|;
    if probes[n - 1] != p {
      assert p in probes[..n - 1] by {
        var k :| 0 <= k < n && probes[k] == p;
        assert probes[..n - 1][k] == p;
      }
      RaisingProbeCaptured(rt, assembly, probes[..n - 1], p);
    }
  }

  /** The failures of every checked type are among all the failures. */
  lemma {:induction false} AllFailuresHoldEachType(rt: JitRuntime, selection: Selection, order: seq<(Module, TypeDesc)>, k: nat, f: CapturedFailure)
    requires AllSelected(selection, order)
    requires k < |order|
    requires f in TypeFailures(rt, selection, order[k])
    ensures f in AllFailures(rt, selection, order)
    decreases |order|
  {
    var n := |order|;
    var init := order[..n - 1];
    assert init + [order[n - 1]] == order;
    AllFailuresStep(rt, selection, init, order[n - 1]);
    if k < n - 1 {
      assert init[k] == order[k];
      AllFailuresHoldEachType(rt, selection, init, k, f);
    }
  }

  /** Every probe succeeds for every selected type. */
  ghost predicate Clean(rt: JitRuntime, selection: Selection) {
    forall a, t, p :: a in selection && t in selection[a] && p in ProbePlan(t, selection[a][t]) ==> Outcome(rt, p).None?
  }

  /** Without a raising probe there is no failure. */
  lemma {:induction false} CleanRunHasNoFailures(rt: JitRuntime, selection: Selection, order: seq<(Module, TypeDesc)>)
    requires AllSelected(selection, order)
    requires Clean(rt, selection)
    ensures AllFailures(rt, selection, order) == []
    decreases |order|
  {
    if order != [] {
      var n := |order|;
      var pair := order[n - 1];
      CleanRunHasNoFailures(rt, selection, order[..n - 1]);
      CleanProbesCaptureNothing(rt, pair.0, ProbePlan(pair.1, selection[pair.0][pair.1]));
    }
  }

  /** The body of the inner loop: check one selected type, recorded after the types checked before it. */
  method CheckSelectedType(
    rt: JitRuntime, ghost selection: Selection, assembly: Module, t: TypeDesc, members: Members,
    reporter: DiagnosticReporterService, ghost order: seq<(Module, TypeDesc)>)
    returns (ghost order': seq<(Module, TypeDesc)>)
    requires Selected(selection, (assembly, t)) && selection[assembly][t] == members
    requires reporter.Valid()
    requires AllSelected(selection, order) && Distinct(order) && (assembly, t) !in order
    requires reporter.Failures == AllFailures(rt, selection, order)
    modifies reporter.Repr
    ensures reporter.Valid()
    ensures order' == order + [(assembly, t)]
    ensures forall pair :: pair in order' <==> pair in order || pair == (assembly, t)
    ensures AllSelected(selection, order') && Distinct(order')
    ensures reporter.Failures == AllFailures(rt, selection, order')
  {
    CheckType(rt, assembly, t, members, reporter);
    AllFailuresStep(rt, selection, order, (assembly, t));
    DistinctConcat(order, [(assembly, t)]);
    order' := order + [(assembly, t)];
  }

  /**
   * The inner loop of `CheckAllTypesInRelatedAssembliesInternal`: every
   * type of one selected assembly is checked with its members, in the order
   * the dictionary hands them out, which `order` records.
   */
  method CheckTypesOfAssembly(
    rt: JitRuntime, ghost selection: Selection, assembly: Module, typesWithMembers: map<TypeDesc, Members>,
    reporter: DiagnosticReporterService, ghost order: seq<(Module, TypeDesc)>)
    returns (ghost order': seq<(Module, TypeDesc)>)
    requires assembly in selection && selection[assembly] == typesWithMembers
    requires reporter.Valid()
    requires AllSelected(selection, order) && Distinct(order)
    requires forall pair :: pair in order ==> pair.0 != assembly
    requires reporter.Failures == AllFailures(rt, selection, order)
    modifies reporter.Repr
    ensures reporter.Valid()
    ensures order <= order'
    ensures forall k :: |order| <= k < |order'| ==> order'[k].0 == assembly
    ensures AllSelected(selection, order') && Distinct(order')
    ensures forall pair :: pair in order' <==> pair in order || (pair.0 == assembly && pair.1 in typesWithMembers)
    ensures ExtendedByRun(order, order', assembly, typesWithMembers.Keys)
    ensures reporter.Failures == AllFailures(rt, selection, order')
  {
    order' := order;
    var remainingTypes := typesWithMembers.Keys;
    ghost var visited: set<TypeDesc> := {};
    while remainingTypes != {}
      invariant remainingTypes !! visited && remainingTypes + visited == typesWithMembers.Keys
      invariant reporter.Valid()
      invariant ExtendedByRun(order, order', assembly, visited)
      invariant AllSelected(selection, order') && Distinct(order')
      invariant reporter.Failures == AllFailures(rt, selection, order')
      decreases remainingTypes
    {
      var t :| t in remainingTypes;
      assert (assembly, t) !in order';
      var members := typesWithMembers[t];
      ExtendedByRunSnoc(order, order', assembly, visited, t);
      order' := CheckSelectedType(rt, selection, assembly, t, members, reporter, order');
      remainingTypes, visited := remainingTypes - {t}, visited + {t};
    }
  }

  /**
   * The outer loop of `CheckAllTypesInRelatedAssembliesInternal`: the
   * types of every selected assembly, the assemblies in the order the
   * dictionary hands them out. Every selected type is checked exactly once.
   */
  method CheckSelection(rt: JitRuntime, membersByTypeByAssembly: Selection, reporter: DiagnosticReporterService)
    returns (ghost order: seq<(Module, TypeDesc)>)
    requires reporter.Valid() && reporter.Failures == []
    modifies reporter.Repr
    ensures reporter.Valid()
    ensures AllSelected(membersByTypeByAssembly, order) && Distinct(order)
    ensures GroupedByAssembly(order)
    ensures forall a, t :: a in membersByTypeByAssembly && t in membersByTypeByAssembly[a] ==> (a, t) in order
    ensures reporter.Failures == AllFailures(rt, membersByTypeByAssembly, order)
  {
    order := [];
    var remainingAssemblies := membersByTypeByAssembly.Keys;
    while remainingAssemblies != {}
      invariant remainingAssemblies <= membersByTypeByAssembly.Keys
      invariant reporter.Valid()
      invariant AllSelected(membersByTypeByAssembly, order) && Distinct(order)
      invariant CheckedAllBut(membersByTypeByAssembly, order, remainingAssemblies)
      invariant reporter.Failures == AllFailures(rt, membersByTypeByAssembly, order)
      decreases remainingAssemblies
    {
      var assembly :| assembly in remainingAssemblies;
      var typesWithMembers := membersByTypeByAssembly[assembly];
      ghost var before := order;
      order := CheckTypesOfAssembly(rt, membersByTypeByAssembly, assembly, typesWithMembers, reporter, order);
      CheckedAllButStep(membersByTypeByAssembly, before, order, remainingAssemblies, assembly);
      remainingAssemblies := remainingAssemblies - {assembly};
    }
  }

  /**
   * `CheckAllTypesInRelatedAssembliesInternal`. The options are the
   * defaults after `configure`; `selection` is what the selection step
   * chose and `order` the order in which the dictionaries handed out its
   * types: every selected type exactly once. The sinks receive what
   * `ReportResults` prescribes for the failures of all those types in that
   * order.
   */
  method CheckAllTypesInRelatedAssembliesInternal(
    host: Host, rt: JitRuntime, mainAssembly: Module,
    hasInfoSink: bool, configure: Option<CheckerOptions -> CheckerOptions>)
    returns (calls: seq<SinkCall>, ghost selection: Selection, ghost order: seq<(Module, TypeDesc)>)
    ensures forall a :: a in selection <==>
              AssemblyWalker.Reachable(host.load, mainAssembly, a) && AcceptsAssembly(Configured(configure).sourceOptions, a)
    ensures forall a :: a in selection ==> IsTypeMap(host, Configured(configure).sourceOptions, a, selection[a])
    ensures AllSelected(selection, order) && Distinct(order)
    ensures GroupedByAssembly(order)
    ensures forall a, t :: a in selection && t in selection[a] ==> (a, t) in order
    ensures calls == Flush(hasInfoSink,
                           Block(Configured(configure).reportingOptions, hasInfoSink, AllFailures(rt, selection, order), ToInfos),
                           Block(Configured(configure).reportingOptions, hasInfoSink, AllFailures(rt, selection, order), ToErrors))
  {
    var options := DefaultCheckerOptions;
    if configure.Some? {
      options := configure.value(options);
    }

    var diagnosticReporterService := new DiagnosticReporterService(hasInfoSink, options.reportingOptions);

    var membersByTypeByAssembly := GetMembersByTypeByAssembly(host, mainAssembly, options.sourceOptions);
    selection := membersByTypeByAssembly;

    order := CheckSelection(rt, membersByTypeByAssembly, diagnosticReporterService);
    calls := diagnosticReporterService.ReportResults();
  }

  /**
   * A clean closure reports nothing: when every probe of every selected
   * type succeeds, neither sink is called.
   */
  lemma CleanClosureReportsNothing(rt: JitRuntime, o: ReportingOptions, hasInfoSink: bool, selection: Selection, order: seq<(Module, TypeDesc)>)
    requires AllSelected(selection, order)
    requires Clean(rt, selection)
    ensures Flush(hasInfoSink,
                  Block(o, hasInfoSink, AllFailures(rt, selection, order), ToInfos),
                  Block(o, hasInfoSink, AllFailures(rt, selection, order), ToErrors)) == []
  {
    CleanRunHasNoFailures(rt, selection, order);
  }

  /**
   * Nothing is lost: a probe of a checked type that raises an exception
   * the options send to the error block makes the error sink the last one
   * called, with a block that holds that failure's formatted message.
   */
  lemma RaisedErrorReachesErrorSink(
    rt: JitRuntime, o: ReportingOptions, hasInfoSink: bool, selection: Selection,
    order: seq<(Module, TypeDesc)>, k: nat, p: Probe)
    requires AllSelected(selection, order) && k < |order|
    requires p in ProbePlan(order[k].1, selection[order[k].0][order[k].1])
    requires Outcome(rt, p).Some?
    requires Classify(o, hasInfoSink, CapturedFailure(Outcome(rt, p).value, order[k].0, p.typeInfo, p.ReportedMember())) == ToErrors
    ensures var failures := AllFailures(rt, selection, order);
            var errors := Block(o, hasInfoSink, failures, ToErrors);
            var calls := Flush(hasInfoSink, Block(o, hasInfoSink, failures, ToInfos), errors);
            && FormatReportMessage(Outcome(rt, p).value, order[k].0, p.typeInfo, p.ReportedMember()) in errors
            && |calls| > 0 && calls[|calls| - 1] == ErrorSinkCall(Render(errors))
  {
    var f := CapturedFailure(Outcome(rt, p).value, order[k].0, p.typeInfo, p.ReportedMember());
    var failures := AllFailures(rt, selection, order);
    RaisingProbeCaptured(rt, order[k].0, ProbePlan(order[k].1, selection[order[k].0][order[k].1]), p);
    AllFailuresHoldEachType(rt, selection, order, k, f);
    var j :| 0 <= j < |failures| && failures[j] == f;
    BlockMembers(o, hasInfoSink, failures, ToErrors);
  }
}
