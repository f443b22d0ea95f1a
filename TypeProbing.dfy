/**
 * Probing one type: `CheckType` runs the type initializer, then prepares
 * every eligible constructor, property accessor, field, event accessor and
 * method in this fixed order, and `TryAndReport` hands every failure to the
 * reporter without stopping the probes that follow.
 */
module TypeProbing {
  import opened Wrappers
  import opened Runtime
  import opened Options
  import opened DiagnosticReporter
  import opened Sequences

  /** One force-materialize action of `CheckType`. */
  datatype Probe =
    | RunClassConstructor(typeInfo: TypeDesc)
    | JitMethod(typeInfo: TypeDesc, member: MemberInfo)
    | CheckFieldType(typeInfo: TypeDesc, field: FieldDesc)
  {
    /** The member `TryAndReport` is given: none for the type initializer. */
    function ReportedMember(): Option<MemberInfo> {
      match this
      case RunClassConstructor(_) => None
      case JitMethod(_, m) => Some(m)
      case CheckFieldType(_, f) => Some(FieldMember(f))
    }
  }

  /**
   * The runtime primitives behind the probes: `RunClassConstructor` and
   * `JitMethod` as an oracle that tells which exception, if any, a probe
   * raises; for a field probe, the exception reading `FieldInfo.FieldType`
   * raises, if any. `missingFieldMessage` is the message the runtime gives a
   * `MissingFieldException` for a field name.
   */
  datatype JitRuntime = JitRuntime(prepare: Probe -> Option<Exception>, missingFieldMessage: string -> string)

  /**
   * What running a probe raises. The field check reads the field's type,
   * which may itself raise; otherwise it is the checker's own code: a field
   * whose type is null raises `MissingFieldException` for that field's name,
   * any other field raises nothing.
   */
  function Outcome(rt: JitRuntime, p: Probe): (r: Option<Exception>)
    ensures !p.CheckFieldType? ==> r == rt.prepare(p)
    ensures p.CheckFieldType? && rt.prepare(p).Some? ==> r == rt.prepare(p)
    ensures p.CheckFieldType? && rt.prepare(p).None? ==> (r.Some? <==> p.field.fieldType.None?)
    ensures p.CheckFieldType? && rt.prepare(p).None? && r.Some? ==>
              r.value.Is(MissingFieldExceptionName) && r.value.message == rt.missingFieldMessage(p.field.name)
  {
    match p
    case CheckFieldType(_, f) =>
      if rt.prepare(p).Some? then rt.prepare(p)
      else if f.fieldType.None? then Some(MissingFieldException(rt.missingFieldMessage(f.name)))
      else None
    case _ => rt.prepare(p)
  }

  /** The probes for each element of `s`, in order. */
  function FlatMap<T>(s: seq<T>, f: T -> seq<Probe>): seq<Probe> {
    if s == [] then [] else FlatMap(s[..|s| - 1], f) + f(s[|s| - 1])
  }

  /** A probe comes from some element of the sequence the probes were made for, and every probe of every element is there. */
  lemma {:induction false} FlatMapMembers<T>(s: seq<T>, f: T -> seq<Probe>, p: Probe)
    ensures p in FlatMap(s, f) <==> exists k :: 0 <= k < |s| && p in f(s[k])
    decreases |s|
  {
    if s != [] {
      var n := |s|;
      FlatMapMembers(s[..n - 1], f, p);
      if p in f(s[n - 1]) {
        assert 0 <= n - 1 < |s| && p in f(s[n - 1]);
      }
      if exists k :: 0 <= k < |s| && p in f(s[k]) {
        var k :| 0 <= k < |s| && p in f(s[k]);
        if k < n - 1 {
          assert s[..n - 1][k] == s[k];
        }
      }
    }
  }

  /** A constructor is prepared unless it is abstract. */
  function ConstructorProbes(t: TypeDesc, c: MethodDesc): seq<Probe> {
    if !c.isAbstract then [JitMethod(t, ConstructorMember(c))] else []
  }

  /** An accessor is prepared when it exists and is not abstract. */
  function AccessorProbes(t: TypeDesc, accessor: Option<MethodDesc>): seq<Probe> {
    if accessor.Some? && !accessor.value.isAbstract then [JitMethod(t, MethodMember(accessor.value))] else []
  }

  /** The getter, then independently the setter. */
  function PropertyProbes(t: TypeDesc, p: PropertyDesc): seq<Probe> {
    AccessorProbes(t, p.getter) + AccessorProbes(t, p.setter)
  }

  /** Every field's type is checked. */
  function FieldProbes(t: TypeDesc, f: FieldDesc): seq<Probe> {
    [CheckFieldType(t, f)]
  }

  /** The add accessor, then independently the remove accessor. */
  function EventProbes(t: TypeDesc, e: EventDesc): seq<Probe> {
    AccessorProbes(t, e.adder) + AccessorProbes(t, e.remover)
  }

  /** A method is prepared unless it is abstract. */
  function MethodProbes(t: TypeDesc, m: MethodDesc): seq<Probe> {
    if !m.isAbstract then [JitMethod(t, MethodMember(m))] else []
  }

  /** The per-element probe makers of one type, as values `FlatMap` can take. */
  function ConstructorProbesOf(t: TypeDesc): MethodDesc -> seq<Probe> { c => ConstructorProbes(t, c) }
  function PropertyProbesOf(t: TypeDesc): PropertyDesc -> seq<Probe> { p => PropertyProbes(t, p) }
  function FieldProbesOf(t: TypeDesc): FieldDesc -> seq<Probe> { f => FieldProbes(t, f) }
  function EventProbesOf(t: TypeDesc): EventDesc -> seq<Probe> { e => EventProbes(t, e) }
  function MethodProbesOf(t: TypeDesc): MethodDesc -> seq<Probe> { m => MethodProbes(t, m) }

  /** The member probes of a type: constructors, properties, fields, events, then methods. */
  function MemberProbes(t: TypeDesc, members: Members): seq<Probe> {
    FlatMap(members.constructors, ConstructorProbesOf(t))
    + FlatMap(members.properties, PropertyProbesOf(t))
    + FlatMap(members.fields, FieldProbesOf(t))
    + FlatMap(members.events, EventProbesOf(t))
    + FlatMap(members.methods, MethodProbesOf(t))
  }

  /** Every probe `CheckType` runs for a type, in the order it runs them: the type initializer, then the members. */
  function ProbePlan(t: TypeDesc, members: Members): seq<Probe> {
    [RunClassConstructor(t)] + MemberProbes(t, members)
  }

  /** The failure a probe yields: one when it raises, with the probe's assembly, type and member; none otherwise. */
  function CaptureOne(rt: JitRuntime, assembly: Module, p: Probe): seq<CapturedFailure> {
    match Outcome(rt, p)
    case Some(e) => [CapturedFailure(e, assembly, p.typeInfo, p.ReportedMember())]
    case None => []
  }

  /** The failures a sequence of probes yields, in probe order. */
  function Captured(rt: JitRuntime, assembly: Module, probes: seq<Probe>): seq<CapturedFailure> {
    if probes == [] then []
    else Captured(rt, assembly, probes[..|probes| - 1]) + CaptureOne(rt, assembly, probes[|probes| - 1])
  }

  /** The probes that raise, in order. */
  function Failing(rt: JitRuntime, probes: seq<Probe>): (r: seq<Probe>)
    ensures forall p :: p in r <==> p in probes && Outcome(rt, p).Some?
  {
    if probes == [] then []
    else
      var p := probes[|probes| - 1];
      assert probes == probes[..|probes| - 1] + [p];
      Failing(rt, probes[..|probes| - 1]) + (if Outcome(rt, p).Some? then [p] else [])
  }

  /**
   * A failure never stops later probes: the failures of two runs of probes
   * one after the other are those of the first run, then those of the second.
   */
  lemma {:induction false} CapturedConcat(rt: JitRuntime, assembly: Module, first: seq<Probe>, second: seq<Probe>)
    ensures Captured(rt, assembly, first + second) == Captured(rt, assembly, first) + Captured(rt, assembly, second)
    decreases |second|
  {
    if second == [] {
      assert first + second == first;
    } else {
      var n := |second|;
      assert (first + second)[..|first + second| - 1] == first + second[..n - 1];
      CapturedConcat(rt, assembly, first, second[..n - 1]);
    }
  }

  /**
   * Exactly one failure per raising probe, in probe order, each carrying
   * that probe's exception, the assembly, the probe's type and its member.
   */
  lemma {:induction false} CapturedPerFailingProbe(rt: JitRuntime, assembly: Module, probes: seq<Probe>)
    ensures |Captured(rt, assembly, probes)| == |Failing(rt, probes)|
    ensures forall k :: 0 <= k < |Failing(rt, probes)| ==>
              var p := Failing(rt, probes)[k];
              Captured(rt, assembly, probes)[k] == CapturedFailure(Outcome(rt, p).value, assembly, p.typeInfo, p.ReportedMember())
    decreases |probes|
  {
    if probes != [] {
      CapturedPerFailingProbe(rt, assembly, probes[..|probes| - 1]);
    }
  }

  /** Probes that all succeed yield no failure. */
  lemma {:induction false} CleanProbesCaptureNothing(rt: JitRuntime, assembly: Module, probes: seq<Probe>)
    requires forall p :: p in probes ==> Outcome(rt, p).None?
    ensures Captured(rt, assembly, probes) == []
    decreases |probes|
  {
    if probes != [] {
      var n := |probes|;
      assert forall p :: p in probes[..n - 1] ==> p in probes;
      CleanProbesCaptureNothing(rt, assembly, probes[..n - 1]);
      assert probes[n - 1] in probes;
    }
  }

  /**
   * Members are probed one by one: of two different constructors, for
   * instance overloads that share the name `.ctor`, one may fail while the
   * other prepares, and then exactly one failure is reported.
   */
  lemma DistinctConstructorsFailIndependently(
    rt: JitRuntime, assembly: Module, t: TypeDesc, c1: MethodDesc, c2: MethodDesc, e: Exception)
    requires c1 != c2 && !c1.isAbstract && !c2.isAbstract
    requires rt.prepare(JitMethod(t, ConstructorMember(c1))).None?
    requires rt.prepare(JitMethod(t, ConstructorMember(c2))) == Some(e)
    ensures Captured(rt, assembly, FlatMap([c1, c2], ConstructorProbesOf(t)))
              == [CapturedFailure(e, assembly, t, Some(ConstructorMember(c2)))]
  {
    var p1, p2 := JitMethod(t, ConstructorMember(c1)), JitMethod(t, ConstructorMember(c2));
    FlatMapPair(c1, c2, ConstructorProbesOf(t));
    assert FlatMap([c1, c2], ConstructorProbesOf(t)) == [p1, p2];
    CapturedPair(rt, assembly, p1, p2);
    assert CaptureOne(rt, assembly, p1) == [];
    assert CaptureOne(rt, assembly, p2) == [CapturedFailure(e, assembly, t, Some(ConstructorMember(c2)))];
  }

  /** The probes of two elements are those of the first, then those of the second. */
  lemma FlatMapPair<T>(x: T, y: T, f: T -> seq<Probe>)
    ensures FlatMap([x, y], f) == f(x) + f(y)
  {
    assert [x, y][..1] == [x] && [x][..0] == [];
    assert FlatMap([x], f) == [] + f(x) == f(x);
  }

  /** The failures of two probes are those of the first, then those of the second. */
  lemma CapturedPair(rt: JitRuntime, assembly: Module, p1: Probe, p2: Probe)
    ensures Captured(rt, assembly, [p1, p2]) == CaptureOne(rt, assembly, p1) + CaptureOne(rt, assembly, p2)
  {
    assert [p1, p2][..1] == [p1] && [p1][..0] == [];
    assert Captured(rt, assembly, [p1]) == [] + CaptureOne(rt, assembly, p1) == CaptureOne(rt, assembly, p1);
  }

  /** A property of probes that every probe made for every element has holds of all of them. */
  lemma FlatMapAll<T>(s: seq<T>, f: T -> seq<Probe>, property: Probe -> bool)
    requires forall k, p :: 0 <= k < |s| && p in f(s[k]) ==> property(p)
    ensures forall p :: p in FlatMap(s, f) ==> property(p)
  {
    forall p | p in FlatMap(s, f)
      ensures property(p)
    {
      FlatMapMembers(s, f, p);
    }
  }

  /** Every probe of an element is among the probes of the sequence. */
  lemma {:induction false} FlatMapHas<T>(s: seq<T>, f: T -> seq<Probe>, k: nat, p: Probe)
    requires k < |s| && p in f(s[k])
    ensures p in FlatMap(s, f)
    decreases |s|
  {
    var n := |s|;
    if k < n - 1 {
      assert s[..n - 1][k] == s[k];
      FlatMapHas(s[..n - 1], f, k, p);
    }
  }

  /** The method a `JitMethod` probe prepares. */
  function PreparedMethod(p: Probe): Option<MethodDesc> {
    match p
    case JitMethod(_, ConstructorMember(c)) => Some(c)
    case JitMethod(_, MethodMember(m)) => Some(m)
    case _ => None
  }

  /** A member probe of type `t` that, when it prepares a method, prepares a constructor or method that is not abstract. */
  predicate ConcreteMemberProbe(t: TypeDesc, p: Probe) {
    && !p.RunClassConstructor?
    && p.typeInfo == t
    && p.ReportedMember().Some?
    && (p.JitMethod? ==> PreparedMethod(p).Some? && !PreparedMethod(p).value.isAbstract)
  }

  /** Each category's probes are concrete member probes of the type. */
  lemma ConstructorProbesAreConcrete(t: TypeDesc, constructors: seq<MethodDesc>)
    ensures forall p :: p in FlatMap(constructors, ConstructorProbesOf(t)) ==> ConcreteMemberProbe(t, p)
  {
    FlatMapAll(constructors, ConstructorProbesOf(t), p => ConcreteMemberProbe(t, p));
  }

  lemma PropertyProbesAreConcrete(t: TypeDesc, properties: seq<PropertyDesc>)
    ensures forall p :: p in FlatMap(properties, PropertyProbesOf(t)) ==> ConcreteMemberProbe(t, p)
  {
    FlatMapAll(properties, PropertyProbesOf(t), p => ConcreteMemberProbe(t, p));
  }

  lemma FieldProbesAreConcrete(t: TypeDesc, fields: seq<FieldDesc>)
    ensures forall p :: p in FlatMap(fields, FieldProbesOf(t)) ==> ConcreteMemberProbe(t, p)
  {
    FlatMapAll(fields, FieldProbesOf(t), p => ConcreteMemberProbe(t, p));
  }

  lemma EventProbesAreConcrete(t: TypeDesc, events: seq<EventDesc>)
    ensures forall p :: p in FlatMap(events, EventProbesOf(t)) ==> ConcreteMemberProbe(t, p)
  {
    FlatMapAll(events, EventProbesOf(t), p => ConcreteMemberProbe(t, p));
  }

  lemma MethodProbesAreConcrete(t: TypeDesc, methods: seq<MethodDesc>)
    ensures forall p :: p in FlatMap(methods, MethodProbesOf(t)) ==> ConcreteMemberProbe(t, p)
  {
    FlatMapAll(methods, MethodProbesOf(t), p => ConcreteMemberProbe(t, p));
  }

  /** The member probes are all concrete member probes of the type. */
  lemma MemberProbesAreConcrete(t: TypeDesc, members: Members)
    ensures forall p :: p in MemberProbes(t, members) ==> ConcreteMemberProbe(t, p)
  {
    ConstructorProbesAreConcrete(t, members.constructors);
    PropertyProbesAreConcrete(t, members.properties);
    FieldProbesAreConcrete(t, members.fields);
    EventProbesAreConcrete(t, members.events);
    MethodProbesAreConcrete(t, members.methods);
  }

  /**
   * The type initializer is probed first, with no member, and only there;
   * no abstract constructor or method is ever prepared.
   */
  lemma ClassConstructorFirstAndNoAbstractProbed(t: TypeDesc, members: Members)
    ensures ProbePlan(t, members)[0] == RunClassConstructor(t)
    ensures ProbePlan(t, members)[0].ReportedMember() == None
    ensures forall k :: 0 < k < |ProbePlan(t, members)| ==>
              !ProbePlan(t, members)[k].RunClassConstructor? && ProbePlan(t, members)[k].ReportedMember().Some?
    ensures forall p :: p in ProbePlan(t, members) && p.JitMethod? ==>
              PreparedMethod(p).Some? && !PreparedMethod(p).value.isAbstract
  {
    var plan := ProbePlan(t, members);
    MemberProbesAreConcrete(t, members);
    forall k | 0 < k < |plan|
      ensures ConcreteMemberProbe(t, plan[k])
    {
      assert plan[k] == MemberProbes(t, members)[k - 1];
    }
  }

  /** The plan holds the probes of every member category. */
  lemma PlanHoldsCategories(t: TypeDesc, members: Members)
    ensures forall p :: p in FlatMap(members.constructors, ConstructorProbesOf(t)) ==> p in ProbePlan(t, members)
    ensures forall p :: p in FlatMap(members.properties, PropertyProbesOf(t)) ==> p in ProbePlan(t, members)
    ensures forall p :: p in FlatMap(members.fields, FieldProbesOf(t)) ==> p in ProbePlan(t, members)
    ensures forall p :: p in FlatMap(members.events, EventProbesOf(t)) ==> p in ProbePlan(t, members)
    ensures forall p :: p in FlatMap(members.methods, MethodProbesOf(t)) ==> p in ProbePlan(t, members)
  {
  }

  /** A constructor or a method is prepared exactly when it is not abstract. */
  lemma ConstructorsAndMethodsProbed(t: TypeDesc, members: Members)
    ensures forall c :: c in members.constructors ==>
              (JitMethod(t, ConstructorMember(c)) in ProbePlan(t, members) <==> !c.isAbstract)
    ensures forall m :: m in members.methods ==>
              (JitMethod(t, MethodMember(m)) in ProbePlan(t, members) <==> !m.isAbstract)
  {
    ClassConstructorFirstAndNoAbstractProbed(t, members);
    PlanHoldsCategories(t, members);
    forall c | c in members.constructors && !c.isAbstract
      ensures JitMethod(t, ConstructorMember(c)) in ProbePlan(t, members)
    {
      var k :| 0 <= k < |members.constructors| && members.constructors[k] == c;
      FlatMapHas(members.constructors, ConstructorProbesOf(t), k, JitMethod(t, ConstructorMember(c)));
    }
    forall m | m in members.methods && !m.isAbstract
      ensures JitMethod(t, MethodMember(m)) in ProbePlan(t, members)
    {
      var k :| 0 <= k < |members.methods| && members.methods[k] == m;
      FlatMapHas(members.methods, MethodProbesOf(t), k, JitMethod(t, MethodMember(m)));
    }
  }

  /**
   * Each property accessor that exists and is not abstract is prepared:
   * the getter and the setter, each on its own.
   */
  lemma PropertyAccessorsProbed(t: TypeDesc, members: Members)
    ensures forall p, a :: p in members.properties && (p.getter == Some(a) || p.setter == Some(a)) && !a.isAbstract ==>
              JitMethod(t, MethodMember(a)) in ProbePlan(t, members)
  {
    PlanHoldsCategories(t, members);
    forall p, a | p in members.properties && (p.getter == Some(a) || p.setter == Some(a)) && !a.isAbstract
      ensures JitMethod(t, MethodMember(a)) in ProbePlan(t, members)
    {
      var k :| 0 <= k < |members.properties| && members.properties[k] == p;
      FlatMapHas(members.properties, PropertyProbesOf(t), k, JitMethod(t, MethodMember(a)));
    }
  }

  /**
   * Each event accessor that exists and is not abstract is prepared: the
   * add and the remove accessor, each on its own.
   */
  lemma EventAccessorsProbed(t: TypeDesc, members: Members)
    ensures forall e, a :: e in members.events && (e.adder == Some(a) || e.remover == Some(a)) && !a.isAbstract ==>
              JitMethod(t, MethodMember(a)) in ProbePlan(t, members)
  {
    PlanHoldsCategories(t, members);
    forall e, a | e in members.events && (e.adder == Some(a) || e.remover == Some(a)) && !a.isAbstract
      ensures JitMethod(t, MethodMember(a)) in ProbePlan(t, members)
    {
      var k :| 0 <= k < |members.events| && members.events[k] == e;
      FlatMapHas(members.events, EventProbesOf(t), k, JitMethod(t, MethodMember(a)));
    }
  }

  /** Every field's type is checked, abstract or not having no bearing on fields. */
  lemma EveryFieldChecked(t: TypeDesc, members: Members)
    ensures forall f :: f in members.fields ==> CheckFieldType(t, f) in ProbePlan(t, members)
  {
    PlanHoldsCategories(t, members);
    forall f | f in members.fields
      ensures CheckFieldType(t, f) in ProbePlan(t, members)
    {
      var k :| 0 <= k < |members.fields| && members.fields[k] == f;
      FlatMapHas(members.fields, FieldProbesOf(t), k, CheckFieldType(t, f));
    }
  }

  /** `TryAndReport`: run one probe; if it raises, report the exception with the probe's context. */
  method TryAndReport(rt: JitRuntime, assembly: Module, probe: Probe, reporter: DiagnosticReporterService)
    requires reporter.Valid()
    modifies reporter.Repr
    ensures reporter.Valid()
    ensures reporter.Failures == old(reporter.Failures) + CaptureOne(rt, assembly, probe)
  {
    var outcome := Outcome(rt, probe);
    if outcome.Some? {
      reporter.AddError(outcome.value, assembly, probe.typeInfo, probe.ReportedMember());
    }
  }

  /** The probes of the first `i + 1` elements are those of the first `i`, then those of element `i`. */
  lemma FlatMapStep<T>(s: seq<T>, f: T -> seq<Probe>, i: nat)
    requires i < |s|
    ensures FlatMap(s[..i + 1], f) == FlatMap(s[..i], f) + f(s[i])
  {
    assert s[..i + 1][..i] == s[..i];
  }

  /** The failures of a single probe are the ones it captures. */
  lemma CapturedSingle(rt: JitRuntime, assembly: Module, p: Probe)
    ensures Captured(rt, assembly, [p]) == CaptureOne(rt, assembly, p)
  {
    assert [p][..0] == [];
  }

  /**
   * After the failures `start` and those of `done`, the failures of `next`:
   * together, `start` and the failures of `done + next`.
   */
  lemma CapturedAfter(rt: JitRuntime, assembly: Module, start: seq<CapturedFailure>, done: seq<Probe>, next: seq<Probe>)
    ensures start + Captured(rt, assembly, done) + Captured(rt, assembly, next) == start + Captured(rt, assembly, done + next)
  {
    CapturedConcat(rt, assembly, done, next);
    AppendAssociative(start, Captured(rt, assembly, done), Captured(rt, assembly, next));
  }

  /** One accessor of a property or event: prepared when it exists and is not abstract. */
  method CheckAccessor(rt: JitRuntime, assembly: Module, t: TypeDesc, accessor: Option<MethodDesc>, reporter: DiagnosticReporterService)
    requires reporter.Valid()
    modifies reporter.Repr
    ensures reporter.Valid()
    ensures reporter.Failures == old(reporter.Failures) + Captured(rt, assembly, AccessorProbes(t, accessor))
  {
    if accessor.Some? && !accessor.value.isAbstract {
      TryAndReport(rt, assembly, JitMethod(t, MethodMember(accessor.value)), reporter);
      CapturedSingle(rt, assembly, JitMethod(t, MethodMember(accessor.value)));
    }
  }

  /** The constructor loop of `CheckType`. */
  method CheckConstructors(rt: JitRuntime, assembly: Module, t: TypeDesc, constructors: seq<MethodDesc>, reporter: DiagnosticReporterService)
    requires reporter.Valid()
    modifies reporter.Repr
    ensures reporter.Valid()
    ensures reporter.Failures == old(reporter.Failures) + Captured(rt, assembly, FlatMap(constructors, ConstructorProbesOf(t)))
  {
    for i := 0 to |constructors|
      invariant reporter.Valid()
      invariant reporter.Failures == old(reporter.Failures) + Captured(rt, assembly, FlatMap(constructors[..i], ConstructorProbesOf(t)))
    {
      var ctor := constructors[i];
      if !ctor.isAbstract {
        TryAndReport(rt, assembly, JitMethod(t, ConstructorMember(ctor)), reporter);
        CapturedSingle(rt, assembly, JitMethod(t, ConstructorMember(ctor)));
      }
      FlatMapStep(constructors, ConstructorProbesOf(t), i);
      CapturedAfter(rt, assembly, old(reporter.Failures), FlatMap(constructors[..i], ConstructorProbesOf(t)), ConstructorProbes(t, ctor));
    }
    assert constructors[..|constructors|] == constructors;
  }

  /** The property loop of `CheckType`: the getter, then the setter, of each property. */
  method CheckProperties(rt: JitRuntime, assembly: Module, t: TypeDesc, properties: seq<PropertyDesc>, reporter: DiagnosticReporterService)
    requires reporter.Valid()
    modifies reporter.Repr
    ensures reporter.Valid()
    ensures reporter.Failures == old(reporter.Failures) + Captured(rt, assembly, FlatMap(properties, PropertyProbesOf(t)))
  {
    for i := 0 to |properties|
      invariant reporter.Valid()
      invariant reporter.Failures == old(reporter.Failures) + Captured(rt, assembly, FlatMap(properties[..i], PropertyProbesOf(t)))
    {
      var property := properties[i];
      ghost var done := FlatMap(properties[..i], PropertyProbesOf(t));
      CheckAccessor(rt, assembly, t, property.getter, reporter);
      CapturedAfter(rt, assembly, old(reporter.Failures), done, AccessorProbes(t, property.getter));
      CheckAccessor(rt, assembly, t, property.setter, reporter);
      CapturedAfter(rt, assembly, old(reporter.Failures), done + AccessorProbes(t, property.getter), AccessorProbes(t, property.setter));
      AppendAssociative(done, AccessorProbes(t, property.getter), AccessorProbes(t, property.setter));
      FlatMapStep(properties, PropertyProbesOf(t), i);
    }
    assert properties[..|properties|] == properties;
  }

  /** The field loop of `CheckType`: each field's declared type must be resolved. */
  method CheckFields(rt: JitRuntime, assembly: Module, t: TypeDesc, fields: seq<FieldDesc>, reporter: DiagnosticReporterService)
    requires reporter.Valid()
    modifies reporter.Repr
    ensures reporter.Valid()
    ensures reporter.Failures == old(reporter.Failures) + Captured(rt, assembly, FlatMap(fields, FieldProbesOf(t)))
  {
    for i := 0 to |fields|
      invariant reporter.Valid()
      invariant reporter.Failures == old(reporter.Failures) + Captured(rt, assembly, FlatMap(fields[..i], FieldProbesOf(t)))
    {
      var field := fields[i];
      TryAndReport(rt, assembly, CheckFieldType(t, field), reporter);
      CapturedSingle(rt, assembly, CheckFieldType(t, field));
      FlatMapStep(fields, FieldProbesOf(t), i);
      CapturedAfter(rt, assembly, old(reporter.Failures), FlatMap(fields[..i], FieldProbesOf(t)), FieldProbes(t, field));
    }
    assert fields[..|fields|] == fields;
  }

  /** The event loop of `CheckType`: the add accessor, then the remove accessor, of each event. */
  method CheckEvents(rt: JitRuntime, assembly: Module, t: TypeDesc, events: seq<EventDesc>, reporter: DiagnosticReporterService)
    requires reporter.Valid()
    modifies reporter.Repr
    ensures reporter.Valid()
    ensures reporter.Failures == old(reporter.Failures) + Captured(rt, assembly, FlatMap(events, EventProbesOf(t)))
  {
    for i := 0 to |events|
      invariant reporter.Valid()
      invariant reporter.Failures == old(reporter.Failures) + Captured(rt, assembly, FlatMap(events[..i], EventProbesOf(t)))
    {
      var evt := events[i];
      ghost var done := FlatMap(events[..i], EventProbesOf(t));
      CheckAccessor(rt, assembly, t, evt.adder, reporter);
      CapturedAfter(rt, assembly, old(reporter.Failures), done, AccessorProbes(t, evt.adder));
      CheckAccessor(rt, assembly, t, evt.remover, reporter);
      CapturedAfter(rt, assembly, old(reporter.Failures), done + AccessorProbes(t, evt.adder), AccessorProbes(t, evt.remover));
      AppendAssociative(done, AccessorProbes(t, evt.adder), AccessorProbes(t, evt.remover));
      FlatMapStep(events, EventProbesOf(t), i);
    }
    assert events[..|events|] == events;
  }

  /** The method loop of `CheckType`. */
  method CheckMethods(rt: JitRuntime, assembly: Module, t: TypeDesc, methods: seq<MethodDesc>, reporter: DiagnosticReporterService)
    requires reporter.Valid()
    modifies reporter.Repr
    ensures reporter.Valid()
    ensures reporter.Failures == old(reporter.Failures) + Captured(rt, assembly, FlatMap(methods, MethodProbesOf(t)))
  {
    for i := 0 to |methods|
      invariant reporter.Valid()
      invariant reporter.Failures == old(reporter.Failures) + Captured(rt, assembly, FlatMap(methods[..i], MethodProbesOf(t)))
    {
      var meth := methods[i];
      if !meth.isAbstract {
        TryAndReport(rt, assembly, JitMethod(t, MethodMember(meth)), reporter);
        CapturedSingle(rt, assembly, JitMethod(t, MethodMember(meth)));
      }
      FlatMapStep(methods, MethodProbesOf(t), i);
      CapturedAfter(rt, assembly, old(reporter.Failures), FlatMap(methods[..i], MethodProbesOf(t)), MethodProbes(t, meth));
    }
    assert methods[..|methods|] == methods;
  }

  /**
   * `CheckType`: the reporter receives exactly the failures of the type's
   * probe plan, one per raising probe, in plan order.
   */
  method CheckType(rt: JitRuntime, assembly: Module, t: TypeDesc, members: Members, reporter: DiagnosticReporterService)
    requires reporter.Valid()
    modifies reporter.Repr
    ensures reporter.Valid()
    ensures reporter.Failures == old(reporter.Failures) + Captured(rt, assembly, ProbePlan(t, members))
  {
    ghost var start := reporter.Failures;
    ghost var cs := FlatMap(members.constructors, ConstructorProbesOf(t));
    ghost var ps := FlatMap(members.properties, PropertyProbesOf(t));
    ghost var fs := FlatMap(members.fields, FieldProbesOf(t));
    ghost var es := FlatMap(members.events, EventProbesOf(t));

    TryAndReport(rt, assembly, RunClassConstructor(t), reporter);
    CapturedSingle(rt, assembly, RunClassConstructor(t));
    ghost var initialized := reporter.Failures;

    CheckConstructors(rt, assembly, t, members.constructors, reporter);
    CheckProperties(rt, assembly, t, members.properties, reporter);
    CapturedAfter(rt, assembly, initialized, cs, ps);
    CheckFields(rt, assembly, t, members.fields, reporter);
    CapturedAfter(rt, assembly, initialized, cs + ps, fs);
    CheckEvents(rt, assembly, t, members.events, reporter);
    CapturedAfter(rt, assembly, initialized, cs + ps + fs, es);
    CheckMethods(rt, assembly, t, members.methods, reporter);
    CapturedAfter(rt, assembly, initialized, cs + ps + fs + es, FlatMap(members.methods, MethodProbesOf(t)));

    CapturedAfter(rt, assembly, start, [RunClassConstructor(t)], MemberProbes(t, members));
  }
}
