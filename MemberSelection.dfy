/**
 * Selection of what gets probed: `GetAndFilter` per member category, and
 * `GetMembersByTypeByAssembly`, which fills the assembly -> type -> members
 * dictionary for every discovered assembly and type that the options accept.
 */
module MemberSelection {
  import opened Wrappers
  import opened Runtime
  import opened Options
  import AssemblyWalker

  /** LINQ `Where`: the elements `keep` accepts, in their original order. */
  function Where<M(!new)>(s: seq<M>, keep: M -> bool): (r: seq<M>)
    ensures |r| <= |s|
    ensures forall x :: x in r <==> x in s && keep(x)
  {
    if s == [] then []
    else (if keep(s[0]) then [s[0]] else []) + Where(s[1..], keep)
  }

  /** Filtering two parts one after the other gives the filtered parts one after the other: order is kept. */
  lemma {:induction false} WhereConcat<M(!new)>(s: seq<M>, t: seq<M>, keep: M -> bool)
    ensures Where(s + t, keep) == Where(s, keep) + Where(t, keep)
    decreases |s|
  {
    if s == [] {
      assert s + t == t;
    } else {
      assert (s + t)[1..] == s[1..] + t;
      WhereConcat(s[1..], t, keep);
    }
  }

  /** A filter that accepts everything changes nothing. */
  lemma {:induction false} WhereAcceptAll<M(!new)>(s: seq<M>, keep: M -> bool)
    requires forall x :: x in s ==> keep(x)
    ensures Where(s, keep) == s
    decreases |s|
  {
    if s != [] {
      WhereAcceptAll(s[1..], keep);
    }
  }

  /** `specificBindingFlags ?? commonBindingFlags`. */
  function EffectiveFlags(common: BindingFlags, specific: Option<BindingFlags>): BindingFlags {
    if specific.Some? then specific.value else common
  }

  /**
   * The per-member test of `GetAndFilter`: both the common predicate (on
   * the member as a `MemberInfo`) and the specific one accept, an absent
   * predicate accepting everything.
   */
  predicate KeepMember<M>(
    assembly: Module, t: TypeDesc,
    commonPredicate: Option<MemberPredicate<MemberInfo>>,
    specificPredicate: Option<MemberPredicate<M>>,
    asMemberInfo: M -> MemberInfo,
    member: M)
  {
    (commonPredicate.None? || commonPredicate.value(assembly, t, asMemberInfo(member)))
    && (specificPredicate.None? || specificPredicate.value(assembly, t, member))
  }

  /**
   * `GetAndFilter`: the members `getMethod` returns for the specific flags
   * when they are set, the common flags otherwise; unfiltered when neither
   * predicate is set, else only those both predicates accept, in order.
   */
  function GetAndFilter<M(!new)>(
    assembly: Module, t: TypeDesc,
    getMethod: BindingFlags -> seq<M>,
    commonBindingFlags: BindingFlags,
    specificBindingFlags: Option<BindingFlags>,
    commonPredicate: Option<MemberPredicate<MemberInfo>>,
    specificPredicate: Option<MemberPredicate<M>>,
    asMemberInfo: M -> MemberInfo): (r: seq<M>)
    ensures commonPredicate.None? && specificPredicate.None? ==>
              r == getMethod(EffectiveFlags(commonBindingFlags, specificBindingFlags))
    ensures forall x :: x in r <==>
              x in getMethod(EffectiveFlags(commonBindingFlags, specificBindingFlags))
              && KeepMember(assembly, t, commonPredicate, specificPredicate, asMemberInfo, x)
    ensures r == Where(getMethod(EffectiveFlags(commonBindingFlags, specificBindingFlags)),
                       x => KeepMember(assembly, t, commonPredicate, specificPredicate, asMemberInfo, x))
  {
    var members := getMethod(if specificBindingFlags.Some? then specificBindingFlags.value else commonBindingFlags);
    var keep := x => KeepMember(assembly, t, commonPredicate, specificPredicate, asMemberInfo, x);
    if commonPredicate.None? && specificPredicate.None? then
      WhereAcceptAll(members, keep);
      members
    else
      Where(members, keep)
  }

  function AsConstructorInfo(c: MethodDesc): MemberInfo { ConstructorMember(c) }
  function AsPropertyInfo(p: PropertyDesc): MemberInfo { PropertyMember(p) }
  function AsFieldInfo(f: FieldDesc): MemberInfo { FieldMember(f) }
  function AsEventInfo(e: EventDesc): MemberInfo { EventMember(e) }
  function AsMethodInfo(m: MethodDesc): MemberInfo { MethodMember(m) }

  /**
   * The `Members` of one type: `GetAndFilter` for each of the five
   * categories with its own flags and predicate. A member of a category is
   * selected exactly when the host returns it for the category's effective
   * flags and both the common and the category's predicate accept it; with
   * no predicate set, the category is what the host returns, in its order.
   */
  function SelectMembers(host: Host, o: SourceOptions, assembly: Module, t: TypeDesc): (ms: Members)
    ensures forall c :: c in ms.constructors <==>
              c in host.getConstructors(t, EffectiveFlags(o.commonMemberGetterBindingFlags, o.constructorsGetterBindingFlags))
              && KeepMember(assembly, t, o.commonMemberPredicate, o.constructorPredicate, AsConstructorInfo, c)
    ensures forall p :: p in ms.properties <==>
              p in host.getProperties(t, EffectiveFlags(o.commonMemberGetterBindingFlags, o.propertiesGetterBindingFlags))
              && KeepMember(assembly, t, o.commonMemberPredicate, o.propertyPredicate, AsPropertyInfo, p)
    ensures forall f :: f in ms.fields <==>
              f in host.getFields(t, EffectiveFlags(o.commonMemberGetterBindingFlags, o.fieldsGetterBindingFlags))
              && KeepMember(assembly, t, o.commonMemberPredicate, o.fieldPredicate, AsFieldInfo, f)
    ensures forall e :: e in ms.events <==>
              e in host.getEvents(t, EffectiveFlags(o.commonMemberGetterBindingFlags, o.eventsGetterBindingFlags))
              && KeepMember(assembly, t, o.commonMemberPredicate, o.eventPredicate, AsEventInfo, e)
    ensures forall m :: m in ms.methods <==>
              m in host.getMethods(t, EffectiveFlags(o.commonMemberGetterBindingFlags, o.methodsGetterBindingFlags))
              && KeepMember(assembly, t, o.commonMemberPredicate, o.methodPredicate, AsMethodInfo, m)
    ensures o.commonMemberPredicate.None? && o.constructorPredicate.None? && o.propertyPredicate.None?
            && o.fieldPredicate.None? && o.eventPredicate.None? && o.methodPredicate.None? ==>
              && ms.constructors == host.getConstructors(t, EffectiveFlags(o.commonMemberGetterBindingFlags, o.constructorsGetterBindingFlags))
              && ms.properties == host.getProperties(t, EffectiveFlags(o.commonMemberGetterBindingFlags, o.propertiesGetterBindingFlags))
              && ms.fields == host.getFields(t, EffectiveFlags(o.commonMemberGetterBindingFlags, o.fieldsGetterBindingFlags))
              && ms.events == host.getEvents(t, EffectiveFlags(o.commonMemberGetterBindingFlags, o.eventsGetterBindingFlags))
              && ms.methods == host.getMethods(t, EffectiveFlags(o.commonMemberGetterBindingFlags, o.methodsGetterBindingFlags))
  {
    Members(
      GetAndFilter(assembly, t, flags => host.getConstructors(t, flags),
                   o.commonMemberGetterBindingFlags, o.constructorsGetterBindingFlags,
                   o.commonMemberPredicate, o.constructorPredicate, AsConstructorInfo),
      GetAndFilter(assembly, t, flags => host.getProperties(t, flags),
                   o.commonMemberGetterBindingFlags, o.propertiesGetterBindingFlags,
                   o.commonMemberPredicate, o.propertyPredicate, AsPropertyInfo),
      GetAndFilter(assembly, t, flags => host.getFields(t, flags),
                   o.commonMemberGetterBindingFlags, o.fieldsGetterBindingFlags,
                   o.commonMemberPredicate, o.fieldPredicate, AsFieldInfo),
      GetAndFilter(assembly, t, flags => host.getEvents(t, flags),
                   o.commonMemberGetterBindingFlags, o.eventsGetterBindingFlags,
                   o.commonMemberPredicate, o.eventPredicate, AsEventInfo),
      GetAndFilter(assembly, t, flags => host.getMethods(t, flags),
                   o.commonMemberGetterBindingFlags, o.methodsGetterBindingFlags,
                   o.commonMemberPredicate, o.methodPredicate, AsMethodInfo))
  }

  /** The assembly predicate is absent or accepts. */
  predicate AcceptsAssembly(o: SourceOptions, assembly: Module) {
    o.assemblyPredicate.None? || o.assemblyPredicate.value(assembly)
  }

  /** The type predicate is absent or accepts. */
  predicate AcceptsType(o: SourceOptions, assembly: Module, t: TypeDesc) {
    o.typePredicate.None? || o.typePredicate.value(assembly, t)
  }

  /** The type map built for one accepted assembly: its accepted types, each with its selected members. */
  ghost predicate IsTypeMap(host: Host, o: SourceOptions, assembly: Module, membersByType: map<TypeDesc, Members>) {
    && (forall t :: t in membersByType <==> t in host.getTypes(assembly) && AcceptsType(o, assembly, t))
    && (forall t :: t in membersByType ==> membersByType[t] == SelectMembers(host, o, assembly, t))
  }

  /**
   * `GetMembersByTypeByAssembly`: an entry for exactly the assemblies that
   * are reachable from the root and that the assembly predicate accepts;
   * in each, an entry for exactly the types of that assembly that the type
   * predicate accepts, holding the members `SelectMembers` selects for it.
   */
  method GetMembersByTypeByAssembly(host: Host, mainAssembly: Module, o: SourceOptions)
    returns (membersByTypeByAssembly: map<Module, map<TypeDesc, Members>>)
    ensures forall a :: a in membersByTypeByAssembly <==>
              AssemblyWalker.Reachable(host.load, mainAssembly, a) && AcceptsAssembly(o, a)
    ensures forall a :: a in membersByTypeByAssembly ==> IsTypeMap(host, o, a, membersByTypeByAssembly[a])
  {
    membersByTypeByAssembly := map[];
    var assemblies, _ := AssemblyWalker.GetAssembliesForType(host.load, mainAssembly);

    var remaining := assemblies;
    while remaining != {}
      invariant remaining <= assemblies
      invariant forall a :: a in membersByTypeByAssembly <==> a in assemblies - remaining && AcceptsAssembly(o, a)
      invariant forall a :: a in membersByTypeByAssembly ==> IsTypeMap(host, o, a, membersByTypeByAssembly[a])
      decreases remaining
    {
      var assembly :| assembly in remaining;
      remaining := remaining - {assembly};
      if o.assemblyPredicate.None? || o.assemblyPredicate.value(assembly) {
        var membersByType := map[];
        var types := host.getTypes(assembly);
        for i := 0 to |types|
          invariant forall t :: t in membersByType <==> t in types[..i] && AcceptsType(o, assembly, t)
          invariant forall t :: t in membersByType ==> membersByType[t] == SelectMembers(host, o, assembly, t)
        {
          var t := types[i];
          if o.typePredicate.None? || o.typePredicate.value(assembly, t) {
            var members := SelectMembers(host, o, assembly, t);
            membersByType := membersByType[t := members];
          }
          assert types[..i + 1] == types[..i] + [t];
        }
        assert types[..|types|] == types;
        membersByTypeByAssembly := membersByTypeByAssembly[assembly := membersByType];
      }
    }
  }
}
