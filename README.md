# TypeIntegrityChecking in Dafny

TypeIntegrityChecking is a .NET library. It loads every assembly that a root type's assembly
references, directly or indirectly. For each selected type it forces the runtime to materialize
the type: it runs the type initializer and JIT-prepares every non-abstract constructor and
method and every non-abstract public property and event accessor (the ones the parameterless
`GetGetMethod`, `GetSetMethod`, `GetAddMethod` and `GetRemoveMethod` return), and it checks that
every field's type resolves. Every
exception is captured and classified as an error, an informational message or nothing. The two
resulting text blocks go to caller-supplied sinks.

This project models the decision logic around the runtime calls and proves what it promises.
The runtime calls themselves are oracles:

- `Assembly.Load` is a partial map from assembly names to modules. A name outside the map is a
  load that throws.
- `GetTypes`, `GetConstructors`, `GetProperties`, `GetFields`, `GetEvents` and `GetMethods` are
  functions of the type and the binding flags (`Runtime.Host`).
- `RunClassConstructor` and `PrepareMethod` are one oracle `prepare : Probe -> Option<Exception>`
  (`TypeProbing.JitRuntime`). For a field probe the same oracle says whether reading
  `FieldInfo.FieldType` throws.

Modules, one per concern of the source:

- `Wrappers`: the `Option` type that stands for C# `null`.
- `Sequences`: duplicate-free sequences, and one fact about concatenation the proofs use.
- `Runtime`: assemblies, types, members, exceptions, binding flags and the host oracles. A type
  is identified by its declaring assembly's full name together with its own full name. A member
  carries a token standing for its metadata token, so overloads that share a name stay distinct
  and are probed, and may fail, one by one.
- `Options`: `TypeIntegrityCheckerSourceOptions`, `TypeIntegrityCheckerReportingOptions`,
  `TypeIntegrityCheckerOptions` and `Members` as datatypes, plus the default treat-as-info rule.
- `TextLines`: `AppendLine`, and joining text into lines and splitting it back.
- `MessagesBuilder`: `MessagesBuilderService`, a class whose `text` field the methods append to.
- `DiagnosticReporter`: `DiagnosticReporterService`, a class that owns one or two message
  builders; the pure `Classify` and `FormatReportMessage`; and `Flush`, which gives the sink calls
  `ReportResults` makes.
- `AssemblyWalker`: the recursive dependency walk `LoadReferencedAssemblies`. It threads the
  visited set through the recursion.
- `MemberSelection`: `GetAndFilter`, and `GetMembersByTypeByAssembly` with its nested loops.
- `TypeProbing`:
  - `CheckType` and `TryAndReport` as methods over the reporter object;
  - `ProbePlan`, the sequence of probes they run;
  - `Captured`, the failures a run of probes yields.
- `Checker`: `CheckAllTypesInRelatedAssembliesInternal`, the orchestration loop, and end-to-end
  lemmas.

The reporter keeps a ghost log `Failures` of every `AddError` call. Its invariant ties each
builder's message list to `Block`, the formatted messages of the logged failures that `Classify`
sends to that block. `CheckType` is proved to append exactly `Captured(ProbePlan(..))` to that
log. The orchestration is proved to hand the sinks `Flush` of the two blocks of all failures of
all selected types.

## Model

| member | source | states |
|---|---|---|
| `Runtime.Load` | Solution/TypeIntegrityChecking/TypeIntegrityChecker.Logic.cs:160 | A load succeeds exactly for names the host knows, and yields one of the host's assemblies. |
| `Runtime.MissingFieldException` | Solution/TypeIntegrityChecking/TypeIntegrityChecker.Logic.cs:245 | The exception a field check throws is a `MissingFieldException`, a kind of `MissingMemberException`. It is neither an `ArgumentException` nor a `PlatformNotSupportedException`. |
| `Options.DefaultTreatErrorAsInfo` | Solution/TypeIntegrityChecking/Models/TypeIntegrityCheckerReportingOptions.cs:13-20 | The default treat-as-info rule is (ArgumentException ∧ invalid-instantiation message) ∨ (PlatformNotSupportedException ∧ member named BeginInvoke or EndInvoke). The first case holds whatever the member. With no member, the rule holds only in the first case. No other exception kind is info. |
| `Options.DefaultReportingOptionsAcceptAll` | Solution/TypeIntegrityChecking/Models/TypeIntegrityCheckerReportingOptions.cs:11-22 | By default the error and info predicates are null and accept every failure. The treat-as-info predicate is set to the default rule. |
| `TextLines.JoinLinesSnoc` | Solution/TypeIntegrityChecking/Services/DiagnosticReporterService.cs:109-113 | Joining one more line puts exactly one line break before it. |
| `TextLines.AppendLineJoins` | Solution/TypeIntegrityChecking/Services/DiagnosticReporterService.cs:109-112 | `AppendLine` after joined lines that end in a break yields the longer joined lines, again ending in a break. |
| `TextLines.SplitJoinLines` | Solution/TypeIntegrityChecking/Services/DiagnosticReporterService.cs:109-115 | Splitting joined lines at line feeds gives the lines back, when none of them holds a line feed. |
| `MessagesBuilder.Render` | Solution/TypeIntegrityChecking/Services/MessagesBuilderService.cs:11-15 | The buffer text after some messages is empty exactly when no message was added. It holds at least two characters per message, so even an empty message is visible. |
| `MessagesBuilder.RenderConcat` | Solution/TypeIntegrityChecking/Services/MessagesBuilderService.cs:11-19 | Adding two batches of messages renders the first batch's text, then the second's: insertion order is kept. |
| `MessagesBuilder.RenderIsMonotonic` | Solution/TypeIntegrityChecking/Services/MessagesBuilderService.cs:11-15 | The text before further messages is a prefix of the text after them: the buffer only grows. |
| `MessagesBuilder.MessagesBuilderService.constructor` | Solution/TypeIntegrityChecking/Services/MessagesBuilderService.cs:8-9 | A fresh builder has empty text and no messages. |
| `MessagesBuilder.MessagesBuilderService.AddMessage` | Solution/TypeIntegrityChecking/Services/MessagesBuilderService.cs:11-15 | The new text is the old text, a line break, the message and a line break. The message is appended to the message log. |
| `MessagesBuilder.MessagesBuilderService.Any` | Solution/TypeIntegrityChecking/Services/MessagesBuilderService.cs:17 | `Any` holds exactly when the text is non-empty, which is exactly when some message was added. |
| `MessagesBuilder.MessagesBuilderService.ToString` | Solution/TypeIntegrityChecking/Services/MessagesBuilderService.cs:19 | `ToString` returns the rendering of every message added, in insertion order. |
| `DiagnosticReporter.Classify` | Solution/TypeIntegrityChecking/Services/DiagnosticReporterService.cs:43-64 | A failure goes to errors iff it is not treated as info and the error predicate is null or accepts it. It goes to infos iff it is treated as info, an info sink exists, and the info predicate is null or accepts it. An info failure never goes to errors. Without an info sink or a treat-as-info predicate, nothing goes to infos. |
| `DiagnosticReporter.FormatReportMessage` | Solution/TypeIntegrityChecking/Services/DiagnosticReporterService.cs:101-116 | The formatted message is the report lines EXCEPTION, MESSAGE, MEMBER (only for a member), TYPE and ASSEMBLY joined by line breaks, with no break after the ASSEMBLY line. |
| `DiagnosticReporter.FormatReportMessageLines` | Solution/TypeIntegrityChecking/Services/DiagnosticReporterService.cs:101-116 | When none of the names or the message holds a line break, the message read back line by line is EXCEPTION, MESSAGE, MEMBER (iff there is a member), TYPE and ASSEMBLY, in this order and with nothing after. |
| `DiagnosticReporter.BlockMembers` | Solution/TypeIntegrityChecking/Services/DiagnosticReporterService.cs:37-65 | A block holds the message of every failure sent to it, and each message in it is the message of a failure sent to it. |
| `DiagnosticReporter.BlockConcat` | Solution/TypeIntegrityChecking/Services/DiagnosticReporterService.cs:37-65 | Failures captured in two batches fill each block with the first batch's messages, then the second's. |
| `DiagnosticReporter.Flush` | Solution/TypeIntegrityChecking/Services/DiagnosticReporterService.cs:67-82 | The info sink is called iff there is one and its block is non-empty, and it is called first. The error sink is called iff the error block is non-empty, and it is called last. Each sink receives its block's full text, which is never empty. |
| `DiagnosticReporter.DiagnosticReporterService.constructor` | Solution/TypeIntegrityChecking/Services/DiagnosticReporterService.cs:19-35 | A fresh reporter has empty blocks. It has an info builder iff an info sink was supplied. |
| `DiagnosticReporter.DiagnosticReporterService.AddError` | Solution/TypeIntegrityChecking/Services/DiagnosticReporterService.cs:37-65 | The failure is logged. Its formatted message is appended to the error builder iff `Classify` says errors, and to the info builder iff it says infos. Otherwise both builders are left unchanged. |
| `DiagnosticReporter.DiagnosticReporterService.AddInfo` | Solution/TypeIntegrityChecking/Services/DiagnosticReporterService.cs:84-99 | The message is appended to the info builder iff the info predicate is null or accepts it. |
| `DiagnosticReporter.DiagnosticReporterService.ReportResults` | Solution/TypeIntegrityChecking/Services/DiagnosticReporterService.cs:67-82 | The sink calls are `Flush` of the info and error blocks of every failure logged so far. |
| `AssemblyWalker.ReachableThroughReference` | Solution/TypeIntegrityChecking/TypeIntegrityChecker.Logic.cs:156-161 | An assembly reached from a loaded reference is reachable from the referencing assembly. |
| `AssemblyWalker.PathStaysInClosedSet` | Solution/TypeIntegrityChecking/TypeIntegrityChecker.Logic.cs:149-165 | A reference path that starts in a set closed under loaded references stays in it. |
| `AssemblyWalker.ClosedSetHoldsReachable` | Solution/TypeIntegrityChecking/TypeIntegrityChecker.Logic.cs:149-165 | A closed set that holds the root holds everything reachable from the root. |
| `AssemblyWalker.LoadReferencedAssemblies` | Solution/TypeIntegrityChecking/TypeIntegrityChecker.Logic.cs:149-165 | An already visited assembly leaves the set unchanged. Otherwise the call adds the assembly and only assemblies reachable from it. Each added assembly has all its loadable references in the result, and had its references enumerated exactly once. A reference whose load fails is skipped and the rest are still walked. The walk terminates on cycles. |
| `AssemblyWalker.GetAssembliesForType` | Solution/TypeIntegrityChecking/TypeIntegrityChecker.Logic.cs:141-147 | The result holds the root's own assembly. It is exactly the set of assemblies reachable from the root through references that load, and every one of them was expanded exactly once. |
| `MemberSelection.Where` | Solution/TypeIntegrityChecking/TypeIntegrityChecker.Logic.cs:184-189 | The filter keeps exactly the elements the test accepts, and never more elements than it was given. |
| `MemberSelection.WhereConcat` | Solution/TypeIntegrityChecking/TypeIntegrityChecker.Logic.cs:184-189 | Filtering keeps the original order. |
| `MemberSelection.WhereAcceptAll` | Solution/TypeIntegrityChecking/TypeIntegrityChecker.Logic.cs:179-182 | A filter that accepts everything returns its input unchanged. |
| `MemberSelection.GetAndFilter` | Solution/TypeIntegrityChecking/TypeIntegrityChecker.Logic.cs:167-190 | The members are queried with the specific flags when set, else the common flags. With both predicates null, the raw sequence is returned. Otherwise the result is the order-preserving subsequence of members that both predicates accept, a null predicate accepting everything. |
| `MemberSelection.SelectMembers` | Solution/TypeIntegrityChecking/TypeIntegrityChecker.Logic.cs:79-130 | For each of the five categories, a member is selected exactly when the host returns it for that category's flags (the specific ones when set, else the common ones) and both the common predicate and the category's predicate accept it. With no predicate set, each category is exactly what the host returns, in its order. |
| `MemberSelection.GetMembersByTypeByAssembly` | Solution/TypeIntegrityChecking/TypeIntegrityChecker.Logic.cs:53-139 | The result has an entry for exactly the reachable assemblies the assembly predicate (null: all) accepts. In each, there is an entry for exactly the assembly's types the type predicate (null: all) accepts. Each entry holds the five `GetAndFilter` results for its type. |
| `TypeProbing.Outcome` | Solution/TypeIntegrityChecking/TypeIntegrityChecker.Logic.cs:237-249 | A field check raises what reading the field's type raises, if anything. Otherwise it fails iff the field's type is null, with a `MissingFieldException` for that field's name. Other probes fail as the runtime oracle says. |
| `TypeProbing.FlatMapMembers` | Solution/TypeIntegrityChecking/TypeIntegrityChecker.Logic.cs:203-283 | A probe of a member loop is one some element of that loop produced. Every probe of every element is in the loop's probes. |
| `TypeProbing.Failing` | Solution/TypeIntegrityChecking/TypeIntegrityChecker.Logic.cs:303-319 | A probe is among the failing probes iff it is a probe of the run and it raises. |
| `TypeProbing.DistinctConstructorsFailIndependently` | Solution/TypeIntegrityChecking/TypeIntegrityChecker.Logic.cs:203-212 | Each constructor is a probe of its own: when the runtime prepares one of two different non-abstract constructors (overloads included) and fails the other, exactly one failure is reported, for the failing one. |
| `TypeProbing.CapturedConcat` | Solution/TypeIntegrityChecking/TypeIntegrityChecker.Logic.cs:303-319 | A failure never stops later probes. The failures of two runs in sequence are the first run's, then the second's. |
| `TypeProbing.CapturedPerFailingProbe` | Solution/TypeIntegrityChecking/TypeIntegrityChecker.Logic.cs:303-319 | There is exactly one failure per raising probe, in probe order. Each carries that probe's exception, assembly, type and member. |
| `TypeProbing.CleanProbesCaptureNothing` | Solution/TypeIntegrityChecking/TypeIntegrityChecker.Logic.cs:310-313 | Probes that all succeed report nothing. |
| `TypeProbing.MemberProbesAreConcrete` | Solution/TypeIntegrityChecking/TypeIntegrityChecker.Logic.cs:203-283 | Every member probe is for the type, carries a member, and prepares only non-abstract methods. |
| `TypeProbing.ClassConstructorFirstAndNoAbstractProbed` | Solution/TypeIntegrityChecking/TypeIntegrityChecker.Logic.cs:198-283 | The type initializer is probed first, with no member, and at no other position. No abstract constructor, method or accessor is ever prepared. |
| `TypeProbing.ConstructorsAndMethodsProbed` | Solution/TypeIntegrityChecking/TypeIntegrityChecker.Logic.cs:203-212 | A selected constructor, and likewise a selected method, is prepared iff it is not abstract. |
| `TypeProbing.PropertyAccessorsProbed` | Solution/TypeIntegrityChecking/TypeIntegrityChecker.Logic.cs:214-235 | A property's public getter and public setter, as the parameterless `GetGetMethod` and `GetSetMethod` return them, are each prepared when they exist and are not abstract, independently of each other. |
| `TypeProbing.EventAccessorsProbed` | Solution/TypeIntegrityChecking/TypeIntegrityChecker.Logic.cs:251-272 | An event's public add and remove accessors, as the parameterless `GetAddMethod` and `GetRemoveMethod` return them, are each prepared when they exist and are not abstract, independently of each other. |
| `TypeProbing.EveryFieldChecked` | Solution/TypeIntegrityChecking/TypeIntegrityChecker.Logic.cs:237-249 | Every selected field has its type checked. |
| `TypeProbing.TryAndReport` | Solution/TypeIntegrityChecking/TypeIntegrityChecker.Logic.cs:303-319 | The reporter log grows by exactly the probe's failure when the probe raises, and by nothing otherwise. |
| `TypeProbing.CheckAccessor` | Solution/TypeIntegrityChecking/TypeIntegrityChecker.Logic.cs:216-233 | An accessor probe runs only for an existing non-abstract accessor; its failure is appended to the log. |
| `TypeProbing.CheckConstructors` | Solution/TypeIntegrityChecking/TypeIntegrityChecker.Logic.cs:203-212 | The constructor loop appends the failures of the constructor probes, in order. |
| `TypeProbing.CheckProperties` | Solution/TypeIntegrityChecking/TypeIntegrityChecker.Logic.cs:214-235 | The property loop appends the failures of each property's getter probe, then its setter probe, in order. |
| `TypeProbing.CheckFields` | Solution/TypeIntegrityChecking/TypeIntegrityChecker.Logic.cs:237-249 | The field loop appends the failures of the field checks, in order. |
| `TypeProbing.CheckEvents` | Solution/TypeIntegrityChecking/TypeIntegrityChecker.Logic.cs:251-272 | The event loop appends the failures of each event's add probe, then its remove probe, in order. |
| `TypeProbing.CheckMethods` | Solution/TypeIntegrityChecking/TypeIntegrityChecker.Logic.cs:274-283 | The method loop appends the failures of the method probes, in order. |
| `TypeProbing.CheckType` | Solution/TypeIntegrityChecking/TypeIntegrityChecker.Logic.cs:192-284 | The reporter log grows by exactly the failures of the probe plan, in plan order. The plan is the type initializer, then constructors, properties, fields, events and methods. |
| `Checker.Configured` | Solution/TypeIntegrityChecking/TypeIntegrityChecker.Logic.cs:20-21 | The options are the defaults, after the configuration callback when one is given. Without a callback, every assembly and type is accepted, every category is looked up with public, instance and static flags and left unfiltered, the error and info predicates accept every failure, and treat-as-info is the default rule. |
| `Checker.RaisingProbeCaptured` | Solution/TypeIntegrityChecking/TypeIntegrityChecker.Logic.cs:310-317 | A probe that raises yields its failure among those of its run. |
| `Checker.AllFailuresHoldEachType` | Solution/TypeIntegrityChecking/TypeIntegrityChecker.Logic.cs:33-48 | The failures of every checked type are among all the failures. |
| `Checker.CleanRunHasNoFailures` | Solution/TypeIntegrityChecking/TypeIntegrityChecker.Logic.cs:33-48 | When every probe of every selected type succeeds, there is no failure. |
| `Checker.CheckSelectedType` | Solution/TypeIntegrityChecking/TypeIntegrityChecker.Logic.cs:39-46 | Checking one selected type appends exactly that type's failures to the log and records the type after those checked before it. |
| `Checker.CheckTypesOfAssembly` | Solution/TypeIntegrityChecking/TypeIntegrityChecker.Logic.cs:37-47 | Every type of the assembly is checked exactly once. The visiting order only grows at its end, and the log is the failures of all types visited so far in that order. |
| `Checker.GroupedAppendRun` | Solution/TypeIntegrityChecking/TypeIntegrityChecker.Logic.cs:33-48 | Appending the types of an assembly not met before as one run keeps every assembly's types next to each other. |
| `Checker.CheckSelection` | Solution/TypeIntegrityChecking/TypeIntegrityChecker.Logic.cs:33-48 | Every selected type of every selected assembly is checked exactly once, and the types of one assembly are checked one after another. The log is the failures of all of them in visiting order. |
| `Checker.CheckAllTypesInRelatedAssembliesInternal` | Solution/TypeIntegrityChecking/TypeIntegrityChecker.Logic.cs:14-51 | The selection covers exactly the reachable assemblies that the configured options accept, with their accepted types and selected members. Every selected type is checked exactly once, the types of one assembly one after another. The sinks receive `Flush` of the info and error blocks of all resulting failures. |
| `Checker.CleanClosureReportsNothing` | Solution/TypeIntegrityChecking/TypeIntegrityChecker.Logic.cs:14-51 | When every probe of every selected type succeeds, neither sink is called. |
| `Checker.RaisedErrorReachesErrorSink` | Solution/TypeIntegrityChecking/TypeIntegrityChecker.Logic.cs:14-51 | A raising probe of a checked type, when `Classify` sends it to errors, has its formatted message in the error block. The error sink is then the last call made. |

## Left out

- Runtime primitives are left out: `RuntimeHelpers.RunClassConstructor`, `RuntimeHelpers.PrepareMethod` and `JitMethod`, whose generic-argument resolution decides nothing here. They are one oracle `JitRuntime.prepare` from probe to optional exception.
- Non-public property and event accessors are never probed, since the parameterless accessor getters return only public ones; the host gives a property or event with those public accessors, `None` standing for a missing or non-public one.
- Reflection is left out. `GetTypes` and the five member enumerations are host functions indexed by binding flags, and `IsAbstract` is a field. `BindingFlags` semantics are not modelled.
- `GetTypes` throwing (for example `ReflectionTypeLoadException`) is not modelled. The source does not catch it.
- `Assembly.Load` is a finite map, and `GetReferencedAssemblies` is the module's declared reference list.
- AssemblyWalker.LoadReferencedAssemblies: only a failing `Assembly.Load` is modelled. The source's empty `catch` also swallows exceptions raised deeper in the recursive call, which can leave that sub-walk unfinished; the model has no such exceptions.
- The `HashSet` that the recursion shares by reference is threaded through the calls as a value. Only this call chain touches it, so nothing is lost.
- Dictionary and `HashSet` iteration order carries no guarantee. The loops pick any remaining key, and the visiting order is returned as the ghost `order`.
- `Dictionary.Add` throwing on a duplicate key is not modelled. The assembly keys come from a set and cannot repeat. For the type keys the model assumes `GetTypes` returns distinct types: a repeated type would make the source throw, while the model's map update keeps one entry.
- The caller's sinks are not invoked. `ReportResults` returns the calls it would make, in order, as `SinkCall` values.
- The error sink is never null in the source, so the model has only a flag for the info sink's presence.
- The configuration callback is a function from options to options, applied to the defaults.
- Exceptions thrown by the user's predicates propagate unhandled in the source. The model has no such exceptions.
- `Environment.NewLine` is taken to be a line feed.
- `Type.FullName`, `Assembly.FullName`, `Exception.Message` and `MemberInfo.Name` are opaque strings. The exception's type name stands for `exception.GetType().FullName`.
- TypeIntegrityChecker.Interface.cs is not part of this model. Its four public overloads only forward `null` for the info sink and the configuration callback.
