/**
 * The reflection data the checker works on: assemblies, types, member
 * descriptors and exceptions, plus the host's reflection calls as oracles.
 *
 * The .NET runtime itself (assembly loading, `GetTypes`, `GetConstructors`
 * and the other enumerations) is opaque to the checker; here each such call
 * is a field of `Host` whose value the caller chooses freely.
 */
module Runtime {
  import opened Wrappers

  /** The name by which an assembly refers to another one (an `AssemblyName`). */
  type AssemblyName = string

  /**
   * An assembly: its identity and the names returned by
   * `GetReferencedAssemblies`, in declaration order.
   */
  datatype Module = Module(fullName: string, references: seq<AssemblyName>)

  /**
   * A type: the full name of the assembly that declares it and its own
   * full name, which together identify it, so that types of the same name
   * in different assemblies stay apart. Only its full name is ever rendered.
   */
  datatype TypeDesc = TypeDesc(declaringAssembly: string, fullName: string)

  /**
   * A member's identity within its type, standing for its metadata token:
   * overloads, which share a name, differ in it.
   */
  type MemberToken = nat

  /** A constructor, method or accessor (`MethodBase`). */
  datatype MethodDesc = MethodDesc(token: MemberToken, name: string, isAbstract: bool)

  /**
   * A property with what the parameterless `GetGetMethod()` and
   * `GetSetMethod()` return: its public accessors, `None` for an accessor
   * that is missing or not public.
   */
  datatype PropertyDesc = PropertyDesc(token: MemberToken, name: string, getter: Option<MethodDesc>, setter: Option<MethodDesc>)

  /** A field; `fieldType` is `None` when `FieldInfo.FieldType` returns null. */
  datatype FieldDesc = FieldDesc(token: MemberToken, name: string, fieldType: Option<string>)

  /**
   * An event with what the parameterless `GetAddMethod()` and
   * `GetRemoveMethod()` return: its public accessors, `None` for an accessor
   * that is missing or not public.
   */
  datatype EventDesc = EventDesc(token: MemberToken, name: string, adder: Option<MethodDesc>, remover: Option<MethodDesc>)

  /** `MemberInfo`: any of the five member categories. */
  datatype MemberInfo =
    | ConstructorMember(constructorInfo: MethodDesc)
    | PropertyMember(propertyInfo: PropertyDesc)
    | FieldMember(fieldInfo: FieldDesc)
    | EventMember(eventInfo: EventDesc)
    | MethodMember(methodInfo: MethodDesc)
  {
    /** `MemberInfo.Name`. */
    function Name(): string {
      match this
      case ConstructorMember(c) => c.name
      case PropertyMember(p) => p.name
      case FieldMember(f) => f.name
      case EventMember(e) => e.name
      case MethodMember(m) => m.name
    }
  }

  /**
   * An exception object: the full name of its class, the full names of its
   * base classes, and its message.
   */
  datatype Exception = Exception(typeName: string, baseTypes: set<string>, message: string)
  {
    /** C#'s `exception is T`: T is the exception's own class or one of its base classes. */
    predicate Is(t: string) {
      t == typeName || t in baseTypes
    }
  }

  const ArgumentExceptionName := "System.ArgumentException"
  const PlatformNotSupportedExceptionName := "System.PlatformNotSupportedException"
  const MissingFieldExceptionName := "System.MissingFieldException"

  /** `new MissingFieldException(null, fieldName)`; the runtime renders its message. */
  function MissingFieldException(message: string): (e: Exception)
    ensures e.Is(MissingFieldExceptionName) && e.Is("System.MissingMemberException")
    ensures !e.Is(ArgumentExceptionName) && !e.Is(PlatformNotSupportedExceptionName)
  {
    Exception(
      MissingFieldExceptionName,
      {"System.MissingMemberException", "System.MemberAccessException", "System.SystemException", "System.Exception"},
      message)
  }

  /** The members of `BindingFlags` the checker's defaults mention, and two more. */
  datatype BindingFlag = Instance | Static | Public | NonPublic | DeclaredOnly | FlattenHierarchy

  /** A `BindingFlags` value: the set of flags it combines. */
  type BindingFlags = set<BindingFlag>

  /**
   * The host's reflection surface. `load` is `Assembly.Load` as a partial
   * map: a name outside its domain is one whose load throws. The five member
   * enumerations take the type and the binding flags they are called with.
   */
  datatype Host = Host(
    load: map<AssemblyName, Module>,
    getTypes: Module -> seq<TypeDesc>,
    getConstructors: (TypeDesc, BindingFlags) -> seq<MethodDesc>,
    getProperties: (TypeDesc, BindingFlags) -> seq<PropertyDesc>,
    getFields: (TypeDesc, BindingFlags) -> seq<FieldDesc>,
    getEvents: (TypeDesc, BindingFlags) -> seq<EventDesc>,
    getMethods: (TypeDesc, BindingFlags) -> seq<MethodDesc>)

  /** `Assembly.Load(name)`: `None` when the load throws. */
  function Load(load: map<AssemblyName, Module>, name: AssemblyName): (r: Option<Module>)
    ensures r.Some? <==> name in load
    ensures r.Some? ==> r.value in load.Values
  {
    if name in load then Some(load[name]) else None
  }
}
