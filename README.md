# KotlinTypeMapper, modelled in Dafny

This project models the core of `KotlinTypeMapper`, the part of the Kotlin JVM backend that turns
resolved Kotlin declarations and types into JVM names, erased method signatures, generic
signatures and call instructions. It covers these parts of the mapper:

- **Wildcards.** The choice of wildcard for each type argument of a generic signature
  (`getVarianceForWildcard`), and the rule that `Nothing` in a non-contravariant position makes a
  type raw (`hasNothingInNonContravariantPosition`).
- **Generic types.** The generic-signature rendering of class types, inner types and arguments
  (`writeGenericType`, `writeInnerParts`, `writeGenericArguments`), and of formal type parameters
  with their class and interface bounds (`writeFormalTypeParameter(s)`).
- **Signatures.** Erased method signatures (`mapSignatureWithCustomParameters`):
  - the extra constructor parameters: outer instance, captured receiver, enum name and ordinal,
    captured variables, and the values passed on to the superclass constructor;
  - the offsets recorded for captured variables;
  - `this` for DefaultImpls and erased inline-class bodies;
  - return types, with forced boxing (`mapReturnType`, `forceBoxedReturnType`).
- **`$default` variants.** The `$default` variant of a method with default arguments
  (`getDefaultDescriptor`, `mapDefaultMethod`).
- **Calls.** How a call is emitted (`mapToCallableMethod`), together with:
  - the walks over overridden declarations (`findSuperDeclaration`, `findBaseDeclaration`,
    `findAnyDeclaration`);
  - the owner classes of package members (`internalNameForPackageMemberOwner`, `mapOwner`);
  - DefaultImpls (`mapDefaultImpls`, `getContainerClassIdForClassDescriptor`);
  - the owner kind of `$default` calls (`getKindForDefaultImplCall`);
  - the walk along `this(...)` delegation to the first superclass constructor call
    (`findFirstDelegatingSuperCall`).
- **Names.** JVM member names (`mapFunctionName`, `mangleMemberNameIfRequired`), the
  module-name mangling of internal members (`InternalNameMapper`), and backing field names
  (`mapDefaultFieldName`).
- **Version check.** The report of owner classes compiled with an incompatible bytecode version
  (`checkOwnerCompatibility`).

The descriptor graph is modelled as values (`Descriptors`):
- A callable `Fun` carries its container, visibility, overridden declarations, shape, accessor
  kind and the facts other compiler components compute for it.
- The erased descriptor of a type, which the surrounding type mapper computes, is a field of
  `KType`.

Code that works by steps becomes methods proved against specification functions:
- The signature writer is a class (`Writer.SignatureWriter`) whose methods append to its event
  log and parameter list.
- The closure whose captured-variable offsets the constructor mapping records is a class
  (`Signatures.Closure`).
- The loops of the source (the fake-override walk, the delegation walk with its visited set,
  the overridden-return-type scan, the parameter loops) are `while`/`for` loops with
  invariants.

Modules: `Descriptors` (data model and JVM ABI constants), `Writer`, `Wildcards`,
`GenericSignature`, `Naming`, `Defaults`, `Dispatch`, `Delegation`, `Compatibility`,
`Signatures`.

## Model

All source cells refer to `compiler/backend/src/org/jetbrains/kotlin/codegen/state/KotlinTypeMapper.java`.

| member | source | states |
|---|---|---|
| Wildcards.VarianceForWildcard | compiler/backend/src/org/jetbrains/kotlin/codegen/state/KotlinTypeMapper.java:755-788 | an invariant parameter takes the projection's kind; `skipDeclarationSiteWildcards` gives no wildcard; a projection agreeing with the declaration keeps the declaration's variance unless the argument is most precise; a conflicting projection gives `? extends` |
| Wildcards.WildcardFollowsUse | compiler/backend/src/org/jetbrains/kotlin/codegen/state/KotlinTypeMapper.java:755-788 | a `? super` wildcard is only written where the argument is effectively used contravariantly, and never for an `out` parameter |
| Wildcards.DeclarationSiteWildcards | compiler/backend/src/org/jetbrains/kotlin/codegen/state/KotlinTypeMapper.java:771-787 | with "skip if possible", an `out` parameter with a most precise argument loses its wildcard and keeps it otherwise; `In<out X>` becomes `? extends` |
| Wildcards.ArgumentMode | compiler/backend/src/org/jetbrains/kotlin/codegen/state/KotlinTypeMapper.java:727-729 | nested arguments are written in the child mode for their effective variance, or in the current mode when there is none |
| Wildcards.HasNothingInNonContravariantPosition | compiler/backend/src/org/jetbrains/kotlin/codegen/state/KotlinTypeMapper.java:736-752 | the scan returns true exactly when some non-star argument is `Nothing?`, or is `Nothing` for a parameter that is not `in` |
| Wildcards.WellFormedIsAligned | compiler/backend/src/org/jetbrains/kotlin/codegen/state/KotlinTypeMapper.java:737-748 | for a well-formed type, `parameters.get(i)` exists for every argument index |
| GenericSignature.IndexOfFirstParameterized | compiler/backend/src/org/jetbrains/kotlin/codegen/state/KotlinTypeMapper.java:635 | the index of the first segment with arguments, every earlier segment having none; -1 when there is none |
| GenericSignature.TypeEvents | compiler/backend/src/org/jetbrains/kotlin/codegen/state/KotlinTypeMapper.java:611-650 | the rendering of a type is its bare erased type, or a class begin naming that type (directly or through its outer class) closed by the class end |
| GenericSignature.ArrayElement | compiler/backend/src/org/jetbrains/kotlin/codegen/state/KotlinTypeMapper.java:533-549 | an array type has an element projection among its own arguments, and that element is well formed |
| GenericSignature.WriteMappedType | compiler/backend/src/org/jetbrains/kotlin/codegen/state/KotlinTypeMapper.java:533-549 | writes exactly what `MapTypeEvents` gives: a type variable for a type parameter, an array around its element, or the generic rendering of a class type |
| GenericSignature.MapTypeEventsWellShaped | compiler/backend/src/org/jetbrains/kotlin/codegen/state/KotlinTypeMapper.java:533-549 | type variables, arrays and class types all write balanced events |
| GenericSignature.ArrayShape | compiler/backend/src/org/jetbrains/kotlin/codegen/state/KotlinTypeMapper.java:533-549 | an array is written between an array begin and an array end around a balanced element, and an element projected `in` becomes `java/lang/Object` |
| GenericSignature.RawOrClassIsNonEmpty | compiler/backend/src/org/jetbrains/kotlin/codegen/state/KotlinTypeMapper.java:533-549 | mapping a type always writes at least one event |
| GenericSignature.WriteGenericType | compiler/backend/src/org/jetbrains/kotlin/codegen/state/KotlinTypeMapper.java:611-650 | writes exactly the erased type when generics are skipped, and otherwise the rendering `TypeEvents` |
| GenericSignature.WriteInnerParts | compiler/backend/src/org/jetbrains/kotlin/codegen/state/KotlinTypeMapper.java:652-662 | writes `.Inner<args>` for each segment from the given index to the end |
| GenericSignature.WriteSegmentArguments | compiler/backend/src/org/jetbrains/kotlin/codegen/state/KotlinTypeMapper.java:674-702 | writes a segment's arguments, keeping only the last argument of `KFunction`, `KSuspendFunction` and big-arity function classes |
| GenericSignature.WriteArguments | compiler/backend/src/org/jetbrains/kotlin/codegen/state/KotlinTypeMapper.java:704-734 | writes parameter/argument pairs as far as both lists go |
| GenericSignature.WriteArgument | compiler/backend/src/org/jetbrains/kotlin/codegen/state/KotlinTypeMapper.java:714-732 | writes `?` for a star or for `Nothing` at an `in` parameter, and otherwise a bracketed argument with its wildcard |
| GenericSignature.ArgumentEventsPrefix | compiler/backend/src/org/jetbrains/kotlin/codegen/state/KotlinTypeMapper.java:710 | pairing parameters with arguments stops at the shorter list |
| GenericSignature.ArgumentEventsGrow | compiler/backend/src/org/jetbrains/kotlin/codegen/state/KotlinTypeMapper.java:704-734 | the events of the first pairs begin the events of all pairs |
| GenericSignature.ArgumentInPlace | compiler/backend/src/org/jetbrains/kotlin/codegen/state/KotlinTypeMapper.java:704-732 | in a one-segment type written with its arguments, each argument's events sit right after the class begin and the events of the arguments before it |
| GenericSignature.TypeVariableArgument | compiler/backend/src/org/jetbrains/kotlin/codegen/state/KotlinTypeMapper.java:714-732 | an argument that is a type parameter is written as a type variable with its own name and descriptor, with its wildcard, in its place |
| GenericSignature.TypeEventsWellShaped | compiler/backend/src/org/jetbrains/kotlin/codegen/state/KotlinTypeMapper.java:611-734 | every begin the rendering writes is closed by its own end, in nesting order |
| GenericSignature.RawTypeExactly | compiler/backend/src/org/jetbrains/kotlin/codegen/state/KotlinTypeMapper.java:625-628 | a type is written as its bare erased type if and only if generics are absent or a `Nothing` argument makes it raw; otherwise a class begin opens and the class end closes it |
| GenericSignature.NothingErasesOnlyItsOwnList | compiler/backend/src/org/jetbrains/kotlin/codegen/state/KotlinTypeMapper.java:619-628 | an argument that is itself written raw (`List<Nothing>` in `Map<Foo, List<Nothing>>`) is written as its bare erased type, with its wildcard, in its own place among the arguments of an outer type that keeps its list |
| GenericSignature.UnboundedWildcardExactly | compiler/backend/src/org/jetbrains/kotlin/codegen/state/KotlinTypeMapper.java:714-731 | an argument becomes `?` if and only if it is a star or `Nothing` at an `in` parameter; every other argument is written with the wildcard `getVarianceForWildcard` chooses |
| GenericSignature.FunctionClassKeepsLastArgument | compiler/backend/src/org/jetbrains/kotlin/codegen/state/KotlinTypeMapper.java:683-699 | reflection and big-arity function classes are written with their last parameter and argument only |
| GenericSignature.FirstClassBound | compiler/backend/src/org/jetbrains/kotlin/codegen/state/KotlinTypeMapper.java:1613-1630 | finds a bound exactly when some bound is a class that is not an interface on the JVM, and it is one of them |
| GenericSignature.FormalTypeParameterEvents | compiler/backend/src/org/jetbrains/kotlin/codegen/state/KotlinTypeMapper.java:1605-1651 | fails exactly when the parameter is written and some bound is neither a class nor a type parameter; a written parameter starts with its own name |
| GenericSignature.InterfaceBoundsFailExactly | compiler/backend/src/org/jetbrains/kotlin/codegen/state/KotlinTypeMapper.java:1633-1650 | the interface bounds fail exactly when some bound has an unknown classifier |
| GenericSignature.InterfaceBoundWritten | compiler/backend/src/org/jetbrains/kotlin/codegen/state/KotlinTypeMapper.java:1633-1645 | every interface or type-parameter bound is written as its own interface bound group |
| GenericSignature.TypeParameterBoundKeepsName | compiler/backend/src/org/jetbrains/kotlin/codegen/state/KotlinTypeMapper.java:1642-1645 | a bound that is another type parameter is written as that parameter's type variable inside an interface bound group |
| GenericSignature.WriteFormalTypeParameter | compiler/backend/src/org/jetbrains/kotlin/codegen/state/KotlinTypeMapper.java:1605-1651 | succeeds exactly when every bound is a class or a type parameter, and then writes the name, the class bound and the interface bounds |
| GenericSignature.WriteClassBound | compiler/backend/src/org/jetbrains/kotlin/codegen/state/KotlinTypeMapper.java:1613-1631 | writes the class bound group around the first non-interface class bound, or an empty group |
| GenericSignature.WriteInterfaceBounds | compiler/backend/src/org/jetbrains/kotlin/codegen/state/KotlinTypeMapper.java:1633-1650 | writes one interface bound group per interface or type-parameter bound, and fails at an unknown classifier |
| GenericSignature.WriteFormalTypeParameters | compiler/backend/src/org/jetbrains/kotlin/codegen/state/KotlinTypeMapper.java:1598-1603 | writes nothing when generics are skipped; otherwise fails exactly when one parameter fails, and writes all of them in order |
| GenericSignature.InterfaceBoundsFailFrom | compiler/backend/src/org/jetbrains/kotlin/codegen/state/KotlinTypeMapper.java:1647-1649 | a failure at one bound is a failure of the whole parameter |
| GenericSignature.FormalParametersFailFrom | compiler/backend/src/org/jetbrains/kotlin/codegen/state/KotlinTypeMapper.java:1600-1602 | a failure at one parameter is a failure of the whole list |
| GenericSignature.InterfaceBoundsCounted | compiler/backend/src/org/jetbrains/kotlin/codegen/state/KotlinTypeMapper.java:1633-1650 | the interface bounds are balanced, with one interface bound mark per interface or type-parameter bound and no class bound mark |
| GenericSignature.FormalTypeParameterShape | compiler/backend/src/org/jetbrains/kotlin/codegen/state/KotlinTypeMapper.java:1611-1650 | a written formal type parameter starts with its name, opens exactly one class bound, and is balanced |
| Naming.Sanitize | compiler/backend/src/org/jetbrains/kotlin/codegen/state/KotlinTypeMapper.java:1890 | the module name keeps its length; identifier characters stay and every other character becomes `_` |
| Naming.MangleInternalName | compiler/backend/src/org/jetbrains/kotlin/codegen/state/KotlinTypeMapper.java:1889-1891 | the mangled name extends the name, and when the name holds no `$` its first `$` is the one mangling adds |
| Naming.SanitizedHasNoDollar | compiler/backend/src/org/jetbrains/kotlin/codegen/state/KotlinTypeMapper.java:1890 | a sanitized module name holds no `$` |
| Naming.IndexOf | compiler/backend/src/org/jetbrains/kotlin/codegen/state/KotlinTypeMapper.java:1894-1906 | the first position of the character, or -1 exactly when it is absent |
| Naming.DemangleInternalName | compiler/backend/src/org/jetbrains/kotlin/codegen/state/KotlinTypeMapper.java:1897-1901 | defined exactly for names with a `$`; the result holds no `$` and is followed by `$` in the name |
| Naming.ModuleNameSuffix | compiler/backend/src/org/jetbrains/kotlin/codegen/state/KotlinTypeMapper.java:1903-1907 | defined exactly for names that can be mangled |
| Naming.InternalNameWithoutModuleSuffix | compiler/backend/src/org/jetbrains/kotlin/codegen/state/KotlinTypeMapper.java:1909-1913 | defined exactly for names that can be mangled |
| Naming.MangledIsRecognised | compiler/backend/src/org/jetbrains/kotlin/codegen/state/KotlinTypeMapper.java:1889-1895 | every mangled name is recognised as mangled |
| Naming.InternalNameRoundTrip | compiler/backend/src/org/jetbrains/kotlin/codegen/state/KotlinTypeMapper.java:1888-1913 | for a name without `$`, demangling a mangled name gives the name back, the suffix is the sanitized module, and the name without the suffix is `name$` |
| Naming.SplitIsLossless | compiler/backend/src/org/jetbrains/kotlin/codegen/state/KotlinTypeMapper.java:1897-1907 | demangled name, `$` and module suffix put together give the mangled name back |
| Naming.DollarInNameBreaksRoundTrip | compiler/backend/src/org/jetbrains/kotlin/codegen/state/KotlinTypeMapper.java:1889-1906 | a name that holds `$` is split at its own `$`, so the round trip needs names without `$` |
| Naming.ModuleSuffixNotInjective | compiler/backend/src/org/jetbrains/kotlin/codegen/state/KotlinTypeMapper.java:1890 | the modules `a-b` and `a.b` give the same suffix |
| Naming.BoxUnboxNames | compiler/backend/src/org/jetbrains/kotlin/codegen/state/KotlinTypeMapper.java:1128-1134 | the synthesized `box` and `unbox` of an inline class are named `box-impl` and `unbox-impl` |
| Naming.ConstructorNames | compiler/backend/src/org/jetbrains/kotlin/codegen/state/KotlinTypeMapper.java:1139-1158 | constructors keep their name, except in an erased inline class where they become `constructor-impl` with the inline-class suffix |
| Naming.SignatureSuffixWins | compiler/backend/src/org/jetbrains/kotlin/codegen/state/KotlinTypeMapper.java:1151-1173 | for every owner kind and every ordinary non-constructor member with a signature suffix, the JVM name is the name, the suffix and then nothing, `$` and the part name of a private top-level member, or `$` and the module of an internal member; `-impl` never follows the suffix |
| Naming.TopLevelNames | compiler/backend/src/org/jetbrains/kotlin/codegen/state/KotlinTypeMapper.java:1159-1165 | a private top-level member other than `<clinit>` gets `$` and its part name when it has one; other top-level members are not mangled further |
| Naming.InternalMembersMangled | compiler/backend/src/org/jetbrains/kotlin/codegen/state/KotlinTypeMapper.java:1167-1173 | an internal unpublished class member is mangled with its module (its own for a deserialized member) and demangles back; all other members keep their name |
| Naming.MangleMemberNameIfRequired | compiler/backend/src/org/jetbrains/kotlin/codegen/state/KotlinTypeMapper.java:1117-1174 | mangling of an ordinary member only appends to its name |
| Naming.MapFunctionName | compiler/backend/src/org/jetbrains/kotlin/codegen/state/KotlinTypeMapper.java:1041-1087 | a simple function without `@JvmName` or special name keeps its own name as a prefix of its JVM name |
| Naming.FunctionNamePriority | compiler/backend/src/org/jetbrains/kotlin/codegen/state/KotlinTypeMapper.java:1041-1087 | the JVM name comes from the first source that applies: `@JvmName` (not for Java members), the special built-in name, the property name in annotation classes, `invoke` (or the SAM method) for lambdas, local functions and function expressions, and otherwise the mangled name |
| Naming.SyntheticGetterName | compiler/backend/src/org/jetbrains/kotlin/codegen/state/KotlinTypeMapper.java:1056-1065 | a synthetic property accessor's getter is `access$` plus the getter name of its accessor suffix, then mangled |
| Naming.MapDefaultFieldName | compiler/backend/src/org/jetbrains/kotlin/codegen/state/KotlinTypeMapper.java:1105-1114 | the field is named after the callee of a synthetic accessor or after the property, with `$delegate` exactly when delegated |
| Defaults.MaskCountIsCeiling | compiler/backend/src/org/jetbrains/kotlin/codegen/state/KotlinTypeMapper.java:1489 | the number of mask ints is the least that holds one bit per value parameter |
| Defaults.DefaultDescriptorShape | compiler/backend/src/org/jetbrains/kotlin/codegen/state/KotlinTypeMapper.java:1483-1528 | on a method descriptor, the `$default` descriptor keeps the parameters and return type, appends the mask ints and the marker, and prepends the owner exactly for non-static non-constructors |
| Defaults.DefaultMethodName | compiler/backend/src/org/jetbrains/kotlin/codegen/state/KotlinTypeMapper.java:1527 | the `$default` variant of a constructor is `<init>`; any other is the name plus `$default` |
| Defaults.MapDefaultMethod | compiler/backend/src/org/jetbrains/kotlin/codegen/state/KotlinTypeMapper.java:1516-1528 | the `$default` method is named `<init>` exactly when the method is a constructor |
| Defaults.MarkerChoice | compiler/backend/src/org/jetbrains/kotlin/codegen/state/KotlinTypeMapper.java:1490-1493 | constructors, and constructors of inline classes, take a `DefaultConstructorMarker`; every other method takes an `Object` |
| Defaults.ReplaceAllConcat | compiler/backend/src/org/jetbrains/kotlin/codegen/state/KotlinTypeMapper.java:1496-1498 | replacing a character in a concatenation replaces it in both parts |
| Dispatch.FirstClassCallable | compiler/backend/src/org/jetbrains/kotlin/codegen/state/KotlinTypeMapper.java:798-804 | finds an overridden declaration outside interfaces when there is one, and none only when all are in interfaces |
| Dispatch.FirstClassCallableIsFirst | compiler/backend/src/org/jetbrains/kotlin/codegen/state/KotlinTypeMapper.java:798-804 | the declaration found is the first one outside interfaces: every overridden declaration before it is in an interface |
| Dispatch.FindSuperDeclaration | compiler/backend/src/org/jetbrains/kotlin/codegen/state/KotlinTypeMapper.java:791-819 | the loop computes the fake-override unwrapping `SuperDeclaration` |
| Dispatch.SuperDeclarationResult | compiler/backend/src/org/jetbrains/kotlin/codegen/state/KotlinTypeMapper.java:792-818 | the result is reached through overridden declarations, and is either no fake override or, for a super call, a class member overriding interface members only |
| Dispatch.NoFakeOverrideWithoutSuperCall | compiler/backend/src/org/jetbrains/kotlin/codegen/state/KotlinTypeMapper.java:792-818 | without a super call the result is never a fake override |
| Dispatch.SuperDeclarationFailure | compiler/backend/src/org/jetbrains/kotlin/codegen/state/KotlinTypeMapper.java:794-796 | the walk fails only with a missing override, and only when it meets a fake override with no overridden declarations |
| Dispatch.FindBaseDeclaration | compiler/backend/src/org/jetbrains/kotlin/codegen/state/KotlinTypeMapper.java:1030-1038 | the result overrides nothing and is reached from the start; a declaration that overrides nothing is its own base |
| Dispatch.FindAnyDeclaration | compiler/backend/src/org/jetbrains/kotlin/codegen/state/KotlinTypeMapper.java:1022-1027 | a declaration stands for itself; anything else for a reachable declaration that overrides nothing |
| Dispatch.KindForDefaultImplCall | compiler/backend/src/org/jetbrains/kotlin/codegen/state/KotlinTypeMapper.java:1090-1102 | the owner kind is Package, DefaultImpls, ErasedInlineClass or Implementation exactly for package members, interface members, inline-class members and the rest |
| Dispatch.InternalNameForPackageMemberOwner | compiler/backend/src/org/jetbrains/kotlin/codegen/state/KotlinTypeMapper.java:254-290 | fails, with the package-member-not-found error, exactly when the member (or the callee of an accessor) is not in a package, or is a deserialized member without containing classes, or has an unknown origin |
| Dispatch.PackageMemberOwnerInSource | compiler/backend/src/org/jetbrains/kotlin/codegen/state/KotlinTypeMapper.java:259-271 | a source package member is owned by its file class when no facade is wanted, or it is a mutable property or private, and by the facade otherwise |
| Dispatch.AccessorOwnedByFileClass | compiler/backend/src/org/jetbrains/kotlin/codegen/state/KotlinTypeMapper.java:255-267 | an accessor is owned by the file class of the member it calls |
| Dispatch.MapOwner | compiler/backend/src/org/jetbrains/kotlin/codegen/state/KotlinTypeMapper.java:230-251 | apart from local functions, a class member (constructors and script members included) is owned by its class, a package member by its package member owner, and a declaration inside another callable is an error |
| Dispatch.ContainerClassIdAsWritten | compiler/backend/src/org/jetbrains/kotlin/codegen/state/KotlinTypeMapper.java:356-376 | a non-interface keeps its class id; an interface gets a top-level id in the same package |
| Dispatch.NestedInterfaceContainerAsWritten | compiler/backend/src/org/jetbrains/kotlin/codegen/state/KotlinTypeMapper.java:368-373 | for every interface nested in a class, the internal name of the id as written is shorter than the DefaultImpls class calls go to, so the two never name the same class |
| Dispatch.ContainerClassId | compiler/backend/src/org/jetbrains/kotlin/codegen/state/KotlinTypeMapper.java:356-376 | a non-interface keeps its class id; an interface gets its DefaultImpls class nested at the same depth |
| Dispatch.ContainerClassIdIsDefaultImpls | compiler/backend/src/org/jetbrains/kotlin/codegen/state/KotlinTypeMapper.java:356-376 | the corrected container id names the class `mapDefaultImpls` gives, for nested interfaces too |
| Dispatch.MapDefaultImpls | compiler/backend/src/org/jetbrains/kotlin/codegen/state/KotlinTypeMapper.java:583-585 | the DefaultImpls class of an interface is a different class whose name extends the interface's name |
| Dispatch.TopLevelInterfaceContainer | compiler/backend/src/org/jetbrains/kotlin/codegen/state/KotlinTypeMapper.java:368-373 | for top-level interfaces the code as written and the corrected version agree |
| Dispatch.ConstructorDispatch | compiler/backend/src/org/jetbrains/kotlin/codegen/state/KotlinTypeMapper.java:829-836 | a constructor call is `invokespecial` on the constructed class, with no `this` class and no interface flags |
| Dispatch.InterfaceSpecialDispatch | compiler/backend/src/org/jetbrains/kotlin/codegen/state/KotlinTypeMapper.java:879-888 | a super, private or accessor call from an interface to an interface member declared in Java or with `@JvmDefault` is `invokespecial` on the current interface with the resolved declaration's signature, and an interface-member call exactly from JVM 1.8 on |
| Dispatch.InterfaceDefaultImplsDispatch | compiler/backend/src/org/jetbrains/kotlin/codegen/state/KotlinTypeMapper.java:879-902 | any other such call is `invokestatic` with the DefaultImpls signature of the called descriptor, on the current interface's DefaultImpls class, or on the interface itself for an accessor of a `@JvmDefault` callee, which alone is an interface-member call (from JVM 1.8 on) |
| Dispatch.StaticInvocationDispatch | compiler/backend/src/org/jetbrains/kotlin/codegen/state/KotlinTypeMapper.java:904-920 | otherwise static declarations, static accessors, `@JvmStatic` members and members of erased inline classes are `invokestatic` on the receiver class, an interface-member call only on a Java interface from JVM 1.8 on |
| Dispatch.InterfaceInvokeExactly | compiler/backend/src/org/jetbrains/kotlin/codegen/state/KotlinTypeMapper.java:917-924 | a class-member call is `invokeinterface` exactly when an interface calls an interface member neither as a super, private or accessor call nor statically; it then goes to the receiver class and is an interface-member call |
| Dispatch.SpecialMemberDispatch | compiler/backend/src/org/jetbrains/kotlin/codegen/state/KotlinTypeMapper.java:925-930 | otherwise a super call, or a call of a private non-suspend member, is `invokespecial` on the receiver class, an interface-member call exactly for a super call from an interface from JVM 1.8 on |
| Dispatch.VirtualDispatch | compiler/backend/src/org/jetbrains/kotlin/codegen/state/KotlinTypeMapper.java:925-945 | every remaining class-member call is `invokevirtual` on the receiver class (the declaring class for an interface calling a class member or for a function class, else the current class) and is not an interface-member call |
| Dispatch.MapToCallableMethod | compiler/backend/src/org/jetbrains/kotlin/codegen/state/KotlinTypeMapper.java:821-999 | `invokeinterface` calls are interface-member calls, and an interface-member call is always to a member of a JVM interface |
| Dispatch.ScriptMemberDispatch | compiler/backend/src/org/jetbrains/kotlin/codegen/state/KotlinTypeMapper.java:861-949 | a plain member of a script, called without `super`, is `invokevirtual` on the script class, with the script as `this` class, and is not an interface-member call |
| Dispatch.PackageMemberDispatch | compiler/backend/src/org/jetbrains/kotlin/codegen/state/KotlinTypeMapper.java:951-962 | a package member is called with `invokestatic`, without a `this` class, on its owner |
| Dispatch.SuperCallsAreNotVirtual | compiler/backend/src/org/jetbrains/kotlin/codegen/state/KotlinTypeMapper.java:879-930 | a super call of a class member is never `invokevirtual` or `invokeinterface` |
| Dispatch.InterfaceDispatch | compiler/backend/src/org/jetbrains/kotlin/codegen/state/KotlinTypeMapper.java:921-924 | `invokeinterface` is only used for a member of a JVM interface called from a JVM interface, and is an interface-member call |
| Dispatch.ClassMemberInterfaceCall | compiler/backend/src/org/jetbrains/kotlin/codegen/state/KotlinTypeMapper.java:861-949 | within a class member call, `invokeinterface` comes from the interface branch only |
| Dispatch.InterfaceSuperCallMember | compiler/backend/src/org/jetbrains/kotlin/codegen/state/KotlinTypeMapper.java:996 | an `invokespecial` super call made from a JVM interface to a member of a JVM interface is an interface-member call exactly when the target is JVM 1.8 or later |
| Dispatch.DefaultImplsSuperCall | compiler/backend/src/org/jetbrains/kotlin/codegen/state/KotlinTypeMapper.java:879-902 | a super call from a Kotlin interface to a Kotlin interface member without `@JvmDefault` is `invokestatic` on DefaultImpls with the DefaultImpls signature |
| Dispatch.InlineClassMemberDispatch | compiler/backend/src/org/jetbrains/kotlin/codegen/state/KotlinTypeMapper.java:905-940 | members of an inline class are called statically with the erased inline-class signature |
| Dispatch.DefaultMethodOfClassMember | compiler/backend/src/org/jetbrains/kotlin/codegen/state/KotlinTypeMapper.java:872-877 | the `$default` method of a class member lives with its base declaration: in DefaultImpls for an interface without `@JvmDefault`, in the class otherwise |
| Delegation.FindFirstDelegatingSuperCall | compiler/backend/src/org/jetbrains/kotlin/codegen/state/KotlinTypeMapper.java:1821-1833 | the loop with its visited set computes the walk `FirstDelegatingSuperCall` |
| Delegation.SuperCallLeavesClass | compiler/backend/src/org/jetbrains/kotlin/codegen/state/KotlinTypeMapper.java:1821-1833 | the call found targets another class, and it is the delegating call of a constructor of the start's class that the start reaches through `this(...)` calls to constructors of its own class |
| Delegation.SuperCallWellFormed | compiler/backend/src/org/jetbrains/kotlin/codegen/state/KotlinTypeMapper.java:1826-1832 | the call found is one of the given calls, so it keeps their guarantees |
| Delegation.NoSuperCallWithinClass | compiler/backend/src/org/jetbrains/kotlin/codegen/state/KotlinTypeMapper.java:1826-1832 | when all delegating calls stay in the class the walk finds nothing |
| Delegation.DelegationCycle | compiler/backend/src/org/jetbrains/kotlin/codegen/state/KotlinTypeMapper.java:1829-1830 | two constructors delegating to each other end the walk without a result instead of looping |
| Delegation.DelegationThroughThis | compiler/backend/src/org/jetbrains/kotlin/codegen/state/KotlinTypeMapper.java:1826-1831 | `this(...)` to a constructor that calls `super(...)` finds that second call |
| Compatibility.CheckOwnerCompatibility | compiler/backend/src/org/jetbrains/kotlin/codegen/state/KotlinTypeMapper.java:1472-1480 | records the owner class exactly when there is one and its bytecode version is incompatible; otherwise nothing changes, and the tracker holds only incompatible classes |
| Compatibility.IncompatibleClassTracker.Record | compiler/backend/src/org/jetbrains/kotlin/codegen/state/KotlinTypeMapper.java:1478 | appends the class to the record |
| Signatures.AllOverriddenMembers | compiler/backend/src/org/jetbrains/kotlin/codegen/state/KotlinTypeMapper.java:1544 | the list the scan walks holds exactly the declarations reached through overridden declarations |
| Signatures.ForceBoxedReturnType | compiler/backend/src/org/jetbrains/kotlin/codegen/state/KotlinTypeMapper.java:1538-1550 | boxing is forced exactly for `box` of an inline class, or for a primitive return type that overrides, however far up, a non-primitive one |
| Signatures.MapReturnType | compiler/backend/src/org/jetbrains/kotlin/codegen/state/KotlinTypeMapper.java:428-453 | `V` for constructors (nothing written) and Unit-returning functions, `Object` for suspend functions, the boxed type where boxing is forced, and the plain type otherwise |
| Signatures.BoxedReturnForOverride | compiler/backend/src/org/jetbrains/kotlin/codegen/state/KotlinTypeMapper.java:1530-1550 | overriding a non-primitive return type boxes a primitive one; with only primitive overridden return types it stays unboxed |
| Signatures.ValueParams | compiler/backend/src/org/jetbrains/kotlin/codegen/state/KotlinTypeMapper.java:1408-1411 | one value parameter per type, in order, boxed exactly when single-value-parameter boxing is forced |
| Signatures.WriteValueParameters | compiler/backend/src/org/jetbrains/kotlin/codegen/state/KotlinTypeMapper.java:1408-1411 | appends the value parameters |
| Signatures.CapturedParams | compiler/backend/src/org/jetbrains/kotlin/codegen/state/KotlinTypeMapper.java:1739-1768 | at most one captured-variable parameter per captured variable, all of that kind |
| Signatures.WriteCapturedVariables | compiler/backend/src/org/jetbrains/kotlin/codegen/state/KotlinTypeMapper.java:1739-1768 | appends the captured-variable parameters and records the offset of each |
| Signatures.CapturedOffsetIsSlot | compiler/backend/src/org/jetbrains/kotlin/codegen/state/KotlinTypeMapper.java:1765-1766 | the offset recorded for a captured variable is the local-variable slot of its own parameter, which carries the variable's type |
| Signatures.CapturedSuperParams | compiler/backend/src/org/jetbrains/kotlin/codegen/state/KotlinTypeMapper.java:1796-1804 | each value passed for the superclass's captured values is a super-call parameter with the type of one of them that is neither enum name/ordinal nor, with an own outer instance, the outer instance |
| Signatures.ArgumentSuperParams | compiler/backend/src/org/jetbrains/kotlin/codegen/state/KotlinTypeMapper.java:1806-1816 | at most one super-call parameter per explicit argument |
| Signatures.SuperCallParams | compiler/backend/src/org/jetbrains/kotlin/codegen/state/KotlinTypeMapper.java:1780-1818 | all parameters passed to the superclass constructor are super-call parameters, no more than the superclass constructor has |
| Signatures.WriteCapturedSuperParameters | compiler/backend/src/org/jetbrains/kotlin/codegen/state/KotlinTypeMapper.java:1796-1804 | appends the superclass's captured values |
| Signatures.WriteArgumentSuperParameters | compiler/backend/src/org/jetbrains/kotlin/codegen/state/KotlinTypeMapper.java:1806-1816 | appends one parameter per explicit argument |
| Signatures.WriteSuperConstructorCallParameters | compiler/backend/src/org/jetbrains/kotlin/codegen/state/KotlinTypeMapper.java:1780-1818 | appends the captured values and, for an anonymous object, the explicit arguments |
| Signatures.WriteLeadingConstructorParameters | compiler/backend/src/org/jetbrains/kotlin/codegen/state/KotlinTypeMapper.java:1709-1735 | appends outer instance, captured receiver and enum name and ordinal as they apply |
| Signatures.WriteSuperConstructorParameters | compiler/backend/src/org/jetbrains/kotlin/codegen/state/KotlinTypeMapper.java:1772-1776 | appends the super-call parameters when bodies are generated and a superclass call is found |
| Signatures.WriteAdditionalConstructorParameters | compiler/backend/src/org/jetbrains/kotlin/codegen/state/KotlinTypeMapper.java:1708-1777 | appends all additional constructor parameters, and records captured offsets counted after the leading ones |
| Signatures.WriteConstructorSignature | compiler/backend/src/org/jetbrains/kotlin/codegen/state/KotlinTypeMapper.java:1343-1360 | a constructor takes the additional parameters, the value parameters and the marker of a constructor accessor, and returns `V` or, erased in an inline class, the class |
| Signatures.WriteMemberSignature | compiler/backend/src/org/jetbrains/kotlin/codegen/state/KotlinTypeMapper.java:1362-1416 | fails exactly on an unknown bound or a `this` whose container is not a class; writes no generic events when generics are skipped and otherwise exactly the formal type parameter events; writes `this`, receiver and value parameters, and the return type |
| Signatures.WriteParametersAfterThis | compiler/backend/src/org/jetbrains/kotlin/codegen/state/KotlinTypeMapper.java:1384-1411 | appends `this` if needed, the extension receiver if any, and the value parameters |
| Signatures.MapSignatureWithCustomParameters | compiler/backend/src/org/jetbrains/kotlin/codegen/state/KotlinTypeMapper.java:1332-1419 | reports an incompatible owner first, then gives the signature `ExpectedSignature` describes, and updates captured offsets for constructors only |
| Signatures.MapConstructorSignature | compiler/backend/src/org/jetbrains/kotlin/codegen/state/KotlinTypeMapper.java:1343-1360 | the constructor branch gives the signature `ExpectedSignature` describes and records the captured offsets after the leading parameters |
| Signatures.MapMemberSignature | compiler/backend/src/org/jetbrains/kotlin/codegen/state/KotlinTypeMapper.java:1362-1419 | the member branch gives the signature `ExpectedSignature` describes |
| Signatures.ConstructorParamsOrdered | compiler/backend/src/org/jetbrains/kotlin/codegen/state/KotlinTypeMapper.java:1343-1353 | constructor parameters come in the order outer, receiver, enum name/ordinal, captured variables, super-call values, value parameters, marker |
| Signatures.MemberParamsOrdered | compiler/backend/src/org/jetbrains/kotlin/codegen/state/KotlinTypeMapper.java:1384-1411 | member parameters come in the order `this`, extension receiver, value parameters, and the value parameters are the given types |

## Left out

- Types are not mapped here. The erased descriptor of a type, and its boxed form, come from the
  rest of the type mapper (`mapType`, `mapClass`, `mapInlineClassType`). They are fields of
  `KType` and `ClassInfo`. Only their generic rendering is modelled.
- The dispatch of `mapType` itself (`TypeSignatureMapping.kt`) is not part of this model. Its
  three cases that matter to signatures are modelled: type parameters (a type variable), arrays
  and class types. The annotation-mode detail of arrays is omitted. An array type must have
  exactly one argument (`WellFormed`).
- `updateArgumentModeFromAnnotations` and the annotation-driven and optimal return-type mapping
  modes are not modelled: nested arguments use the mode `ArgumentMode` picks. The
  most-precise-argument tests are flags on each argument.
- The generic-signature side of parameters and return types is not modelled. The writer model
  keeps the erased parameters and the return type only. The special built-in rewrite of
  generic signatures (lines 1405-1416) and polymorphic signatures (lines 1425-1470) are not
  part of this model.
- Signatures.WriteMemberSignature: the type parameters of a DefaultImpls body are given as
  input (`patchTypeParametersForDefaultImplMethod` is not part of this model), and so are the
  type parameters of the direct member (taken from the function).
- Signatures.MapReturnType: a suspend function is mapped through its suspend view, which
  returns `Object`. The view itself is not built.
- Signatures.WriteSuperConstructorCallParameters: the erased parameters of the superclass
  constructor come with the call as input instead of being mapped recursively. SAM adapters
  are not resolved.
- Signatures.WriteAdditionalConstructorParameters: the closure, the outer instance and the
  delegating calls are inputs (the binding context is not part of this model). The order of
  captured variables is the closure's order.
- Dispatch.MapToCallableMethod: `LocalVariableAccessorDescriptor` calls, which go through the
  delegate's accessor, are left out. Signatures are returned as requests (which declaration,
  which owner kind), not mapped. The `$default` descriptor is the request the source computes
  on demand.
- Dispatch.MapOwner: the class generated for a local function is an input name, and a
  constructor outside a class is an error. Scripts are classes, so their members are owned by
  the script class.
- Dispatch.InternalNameForPackageMemberOwner: the file of a source member, the classes of a
  deserialized member, and the IR built-ins package are inputs on the container. The error
  thrown when no owner is found is `Err(PackageMemberNotFound)`.
- Defaults: `mapAsmMethod` and `isStaticMethod` are inputs of `MapDefaultMethod`.
- Naming: the bean getter and setter names of the JVM ABI are function parameters. The SAM
  method name of a lambda is an input. The part name used for private top-level members is an
  input, because it comes from the containing file.
- Naming.Sanitize: Java's identifier classes are approximated. ASCII letters and digits are
  kept, other ASCII characters become `_`, and every non-ASCII character is kept.
- Compatibility: the tracker is a plain list of classes. Thread safety is not modelled.
- Configuration (JVM target, class builder mode, module name, release coroutines) becomes
  parameters. Error-type reporting and the null signature visitor are left out: the writer is
  always present.

## Findings

Module-name mangling is sometimes described as telling modules apart. The code's sanitizer
does not: it maps `a-b` and `a.b` to the same suffix (`Naming.ModuleSuffixNotInjective`). The
model follows the code. This is a limit of the design rather than a slip, so it has no row
below.

| source | as written | input that shows it | evidently intended | confidence | as-written member | corrected member |
|---|---|---|---|---|---|---|
| compiler/backend/src/org/jetbrains/kotlin/codegen/state/KotlinTypeMapper.java:368-373 | for an interface, the container class id keeps only the short name: `<short name>$DefaultImpls` at top level of the package | interface `I` nested in class `a.Outer` gives `a/I$DefaultImpls` | `a/Outer$I$DefaultImpls`, the class `mapDefaultImpls` names and where the bodies are | medium, not executed | Dispatch.NestedInterfaceContainerAsWritten | Dispatch.ContainerClassIdIsDefaultImpls |
