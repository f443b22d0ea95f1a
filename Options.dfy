/**
 * The configuration surface of the checker: which assemblies, types and
 * members are selected, and how captured failures are classified. Every
 * predicate is optional; `None` stands for the C# `null` default.
 */
module Options {
  import opened Wrappers
  import opened Runtime

  /** `Func<Assembly, Type, TMember, bool>`: a per-member selection predicate. */
  type MemberPredicate<!M> = (Module, TypeDesc, M) -> bool

  /** `Func<Exception, Assembly, Type, MemberInfo?, bool>`: a classification predicate. */
  type FailurePredicate = (Exception, Module, TypeDesc, Option<MemberInfo>) -> bool

  /** `TypeIntegrityCheckerSourceOptions`. */
  datatype SourceOptions = SourceOptions(
    assemblyPredicate: Option<Module -> bool>,
    typePredicate: Option<(Module, TypeDesc) -> bool>,
    commonMemberGetterBindingFlags: BindingFlags,
    commonMemberPredicate: Option<MemberPredicate<MemberInfo>>,
    constructorsGetterBindingFlags: Option<BindingFlags>,
    constructorPredicate: Option<MemberPredicate<MethodDesc>>,
    propertiesGetterBindingFlags: Option<BindingFlags>,
    propertyPredicate: Option<MemberPredicate<PropertyDesc>>,
    fieldsGetterBindingFlags: Option<BindingFlags>,
    fieldPredicate: Option<MemberPredicate<FieldDesc>>,
    eventsGetterBindingFlags: Option<BindingFlags>,
    eventPredicate: Option<MemberPredicate<EventDesc>>,
    methodsGetterBindingFlags: Option<BindingFlags>,
    methodPredicate: Option<MemberPredicate<MethodDesc>>)

  /** Public instance and static members; every other option unset. */
  const DefaultSourceOptions: SourceOptions :=
    SourceOptions(
      None, None,
      {Public, Instance, Static}, None,
      None, None,
      None, None,
      None, None,
      None, None,
      None, None)

  /** The text of the runtime's invalid-generic-instantiation `ArgumentException`. */
  const InvalidGenericInstantiationMessage := "The given generic instantiation was invalid."

  /** The two delegate methods whose preparation is unsupported on some platforms. */
  predicate IsAsyncDelegateAccessor(name: string) {
    name == "BeginInvoke" || name == "EndInvoke"
  }

  /** The invalid-generic-instantiation condition of the default treat-as-info rule. */
  predicate IsInvalidGenericInstantiation(e: Exception) {
    e.Is(ArgumentExceptionName) && e.message == InvalidGenericInstantiationMessage
  }

  /**
   * The default `TreatErrorAsInfoPredicate`: in C# `&&` binds tighter than
   * `||`, so it is (ArgumentException and the invalid-instantiation message)
   * or (PlatformNotSupportedException and a member named BeginInvoke or
   * EndInvoke). The assembly and the type play no part.
   */
  function DefaultTreatErrorAsInfo(e: Exception, assembly: Module, t: TypeDesc, member: Option<MemberInfo>): (r: bool)
    ensures IsInvalidGenericInstantiation(e) ==> r
    ensures member.None? ==> (r <==> IsInvalidGenericInstantiation(e))
    ensures !IsInvalidGenericInstantiation(e) ==>
              (r <==> e.Is(PlatformNotSupportedExceptionName) && member.Some? && IsAsyncDelegateAccessor(member.value.Name()))
    ensures !e.Is(ArgumentExceptionName) && !e.Is(PlatformNotSupportedExceptionName) ==> !r
  {
    (e.Is(ArgumentExceptionName)
     && e.message == InvalidGenericInstantiationMessage)
    ||
    (e.Is(PlatformNotSupportedExceptionName)
     && member != None
     && (member.value.Name() == "BeginInvoke" || member.value.Name() == "EndInvoke"))
  }

  /** `TypeIntegrityCheckerReportingOptions`. */
  datatype ReportingOptions = ReportingOptions(
    reportErrorPredicate: Option<FailurePredicate>,
    treatErrorAsInfoPredicate: Option<FailurePredicate>,
    reportInfoPredicate: Option<FailurePredicate>)

  /** The reporting defaults: only the treat-as-info predicate is set. */
  const DefaultReportingOptions: ReportingOptions :=
    ReportingOptions(None, Some(DefaultTreatErrorAsInfo), None)

  /** `TypeIntegrityCheckerOptions`. */
  datatype CheckerOptions = CheckerOptions(sourceOptions: SourceOptions, reportingOptions: ReportingOptions)

  const DefaultCheckerOptions: CheckerOptions :=
    CheckerOptions(DefaultSourceOptions, DefaultReportingOptions)

  /** `Members`: the five filtered member sequences selected for one type. */
  datatype Members = Members(
    constructors: seq<MethodDesc>,
    properties: seq<PropertyDesc>,
    fields: seq<FieldDesc>,
    events: seq<EventDesc>,
    methods: seq<MethodDesc>)

  /** An optional predicate accepts when it is absent or returns true (`p?.Invoke(..) ?? true`). */
  predicate AcceptsFailure(p: Option<FailurePredicate>, e: Exception, assembly: Module, t: TypeDesc, member: Option<MemberInfo>) {
    p.None? || p.value(e, assembly, t, member)
  }

  /**
   * The defaults leave the error and info predicates unset, so they accept
   * every failure; the default treat-as-info predicate is the rule above.
   */
  lemma DefaultReportingOptionsAcceptAll(e: Exception, assembly: Module, t: TypeDesc, member: Option<MemberInfo>)
    ensures AcceptsFailure(DefaultReportingOptions.reportErrorPredicate, e, assembly, t, member)
    ensures AcceptsFailure(DefaultReportingOptions.reportInfoPredicate, e, assembly, t, member)
    ensures DefaultReportingOptions.treatErrorAsInfoPredicate.Some?
    ensures DefaultReportingOptions.treatErrorAsInfoPredicate.value(e, assembly, t, member)
              == DefaultTreatErrorAsInfo(e, assembly, t, member)
  {
  }
}
