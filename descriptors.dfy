/** The part of the compiler's resolved descriptor graph that the type mapper reads,
    reduced to values. Facts that other compiler components compute (the erased descriptor
    of a type, the @JvmName of a declaration, ...) are carried as plain fields. */
module Descriptors {

  datatype Option<T> = None | Some(value: T)

  /** The fatal conditions the type mapper raises. */
  datatype Error =
    | MissingOverride        // a fake override without overridden declarations
    | UnsupportedOwner       // a declaration inside a callable, neither in a class (scripts included) nor in a package
    | PackageMemberNotFound  // no owner class could be found for a package member
    | UnknownClassifier      // an upper bound that is neither a class nor a type parameter
    | NotAClassMember        // a container that the source casts to ClassDescriptor is not a class

  datatype Result<T> = Ok(value: T) | Err(error: Error)

  // ---------------------------------------------------------------- types

  datatype Variance = Invariant | In | Out

  /** Whether a type is `Nothing`, `Nothing?` or anything else. */
  datatype Special = Plain | Nothing | NullableNothing

  datatype FunctionClassKind = FunctionKind | SuspendFunctionKind | KFunctionKind | KSuspendFunctionKind

  /** Whether a classifier is one of the built-in function classes. */
  datatype FunctionClass = NotFunctionClass | FunctionClass(kind: FunctionClassKind, bigArity: bool)

  /** One segment of a possibly inner type `Outer<A>.Inner<B>`: its class, the class's declared
      type parameters (by variance) and the arguments given to them. */
  datatype Segment = Segment(
    classInternalName: string,
    shortName: string,
    functionClass: FunctionClass,
    parameters: seq<Variance>,
    arguments: seq<Projection>)

  /** A type argument. A star projection has `star` set and carries its bound as `t`.
      The two `mostPrecise` flags are the answers of the external precision test for this
      argument in its position. */
  datatype Projection = Projection(
    star: bool,
    kind: Variance,
    t: KType,
    mostPreciseCovariant: bool,
    mostPreciseContravariant: bool)

  /** What a type's constructor is: a class, `kotlin.Array`, or a type parameter. */
  datatype Classifier = ClassClassifier | ArrayClassifier | TypeParameterClassifier(parameterName: string)

  /** A source type. `descriptor` is the erased JVM descriptor the external type mapper gives
      it, `boxedDescriptor` the one it gives when boxing is forced; `segments` lists the
      segments of a class or array type, outermost first, and is empty for type parameters and
      `Nothing`. */
  datatype KType = KType(
    descriptor: string,
    boxedDescriptor: string,
    special: Special,
    jvmPrimitive: bool,
    segments: seq<Segment>,
    classifier: Classifier)

  /** The type arguments of a type, innermost segment first (the order the frontend uses). */
  function Arguments(segments: seq<Segment>): (r: seq<Projection>)
    ensures segments == [] ==> r == []
  {
    if segments == [] then []
    else segments[|segments| - 1].arguments + Arguments(segments[..|segments| - 1])
  }

  /** The type parameters of a type's constructor, in the order of `Arguments`. */
  function Parameters(segments: seq<Segment>): seq<Variance>
  {
    if segments == [] then []
    else segments[|segments| - 1].parameters + Parameters(segments[..|segments| - 1])
  }

  /** Function classes whose JVM class keeps only their last type argument. */
  predicate KeepsOnlyLastArgument(s: Segment)
  {
    s.functionClass.FunctionClass? &&
    (s.functionClass.bigArity || s.functionClass.kind == KFunctionKind || s.functionClass.kind == KSuspendFunctionKind)
  }

  /** What the frontend guarantees of every type it hands over: each segment has one argument
      per declared parameter, function classes have a type parameter, an array has exactly one
      argument, a type parameter has no segments, and so on all the way down. */
  predicate WellFormed(t: KType)
    decreases t, 1
  {
    (t.classifier.ArrayClassifier? ==> |t.segments| == 1 && |t.segments[0].arguments| == 1) &&
    (t.classifier.TypeParameterClassifier? ==> t.segments == []) &&
    forall s | s in t.segments :: SegmentWellFormed(s)
  }

  predicate SegmentWellFormed(s: Segment)
    decreases s, 0
  {
    |s.parameters| == |s.arguments| &&
    (KeepsOnlyLastArgument(s) ==> |s.arguments| > 0) &&
    forall p | p in s.arguments :: WellFormed(p.t)
  }

  datatype Bound = ClassBound(t: KType, isJvmInterface: bool) | TypeParameterBound(t: KType) | OtherBound

  datatype TypeParameter = TypeParameter(name: string, isSpecialName: bool, upperBounds: seq<Bound>)

  /** The parts of a type mapping mode that generic rendering reads: the two wildcard flags and
      the modes to use for nested arguments used covariantly, contravariantly and invariantly
      (None: keep the current mode). */
  datatype Mode = Mode(
    skipDeclarationSiteWildcards: bool,
    skipDeclarationSiteWildcardsIfPossible: bool,
    genericArgumentMode: Option<Mode>,
    genericContravariantArgumentMode: Option<Mode>,
    genericInvariantArgumentMode: Option<Mode>)

  /** The mode in which formal type parameter bounds are written. */
  const GenericArgumentMode := Mode(false, false, None, None, None)

  // ---------------------------------------------------------------- classes and containers

  /** Scripts are classes too: they compile to a class of their own. */
  datatype ClassKind = PlainClass | InterfaceKind | EnumClassKind | EnumEntryKind | AnnotationKind | ObjectKind | ScriptKind

  /** A class id: package segments and the relative (possibly nested) class name. */
  datatype ClassId = ClassId(packageSegments: seq<string>, relativeName: seq<string>)

  datatype ClassInfo = ClassInfo(
    id: ClassId,
    internalName: string,   // what the external type mapper gives the class
    kind: ClassKind,
    isInline: bool,
    isJava: bool,
    isFunctionClass: bool,
    isAnonymous: bool,
    typeParameters: seq<TypeParameter>)

  /** The owner classes of a deserialized package member, when they can be found. */
  datatype ContainingClasses = ContainingClasses(facade: string, part: string)

  /** Where a package member comes from. */
  datatype PackageOrigin =
    | SourceFile(fileClass: string, facadeClass: string)
    | Deserialized(classes: Option<ContainingClasses>)
    | IrBuiltins(name: string)
    | FictitiousArray
    | UnknownOrigin

  /** What a declaration is declared in: a package, a class (or script), or a callable. */
  datatype Container = InPackage(origin: PackageOrigin) | InClass(cls: ClassInfo) | InCallable

  predicate IsInterface(c: Container) { c.InClass? && c.cls.kind == InterfaceKind }

  predicate IsScript(c: Container) { c.InClass? && c.cls.kind == ScriptKind }

  /** Interfaces and annotation classes are interfaces on the JVM. */
  predicate IsJvmInterface(c: ClassInfo) { c.kind == InterfaceKind || c.kind == AnnotationKind }

  predicate IsInlineClass(c: Container) { c.InClass? && c.cls.isInline }

  // ---------------------------------------------------------------- callables

  datatype Visibility = Public | Protected | Internal | Private | PrivateToThis | Local

  predicate IsPrivate(v: Visibility) { v == Private || v == PrivateToThis }

  datatype DeclKind = Declaration | FakeOverride | Synthesized

  /** A synthetic accessor that a property is reached through. */
  datatype PropertyAccessor = PropertyAccessor(calleeName: string, accessorSuffix: string)

  datatype Property = Property(
    name: string,
    isConst: bool,
    inAnnotationClass: bool,
    syntheticAccessor: Option<PropertyAccessor>)

  datatype Shape =
    | SimpleFunction
    | ClassConstructor
    | Getter(property: Property)
    | Setter(property: Property)
    | PropertyDeclaration(property: Property)
    | FunctionLiteral(samMethodName: Option<string>)
    | LocalFunction
    | FunctionExpression

  /** The special members of inline classes. */
  datatype InlineClassMember = OrdinaryMember | SynthesizedBox | SynthesizedUnbox | SpecializedEquals

  datatype Flags = Flags(
    isJavaMember: bool,
    jvmDefault: bool,
    staticDeclaration: bool,       // static on the JVM and not imported from an object
    jvmStatic: bool,
    isSuspend: bool,
    publishedApi: bool,
    hasDispatchReceiver: bool,
    hasVoidReturnType: bool,
    forceSingleValueParameterBoxing: bool,
    isSuspendNotView: bool)

  /** Names that other components compute for a declaration. */
  datatype ExternalNames = ExternalNames(
    jvmName: Option<string>,
    specialJvmName: Option<string>,
    inlineClassMember: InlineClassMember,
    signatureManglingSuffix: Option<string>,
    partName: Option<string>,
    moduleName: Option<string>,
    localClassName: string,      // the class generated for a local function
    binaryClass: Option<BinaryClass>)  // the compiled class a deserialized declaration comes from

  /** A compiled class file, with whether its bytecode version is one this compiler reads. */
  datatype BinaryClass = BinaryClass(internalName: string, compatibleVersion: bool)

  /** A callable member descriptor. */
  datatype Fun = Fun(
    name: string,
    kind: DeclKind,
    container: Container,
    visibility: Visibility,
    overridden: seq<Fun>,
    shape: Shape,
    accessor: Accessor,
    reflectedBuiltin: Option<Fun>,
    flags: Flags,
    names: ExternalNames,
    returnType: KType,
    valueParameters: seq<KType>,
    extensionReceiver: Option<KType>,
    typeParameters: seq<TypeParameter>)

  /** Whether a callable is a synthetic accessor, and for what. */
  datatype Accessor =
    | NoAccessor
    | CallableAccessor(callee: Fun, forConstructor: bool)
    | CompanionObjectInstanceAccessor

  predicate IsConstructor(f: Fun) { f.shape.ClassConstructor? }

  predicate IsAccessor(f: Fun) { !f.accessor.NoAccessor? }

  predicate IsStaticAccessor(f: Fun) { IsAccessor(f) && !(f.accessor.CallableAccessor? && f.accessor.forConstructor) }

  predicate IsTopLevel(f: Fun) { f.container.InPackage? }

  // ---------------------------------------------------------------- JVM side

  datatype OwnerKind = Implementation | DefaultImpls | ErasedInlineClass | Package

  datatype Opcode = InvokeVirtual | InvokeSpecial | InvokeStatic | InvokeInterface

  datatype ParamKind =
    | Value | This | Receiver | Outer | CapturedLocalVariable
    | EnumNameOrOrdinal | ConstructorMarker | SuperCallParam

  /** A parameter of an erased JVM method signature. */
  datatype Param = Param(kind: ParamKind, descriptor: string)

  /** JVM slots taken by a value of this descriptor: two for long and double. */
  function SlotSize(descriptor: string): (n: nat)
    ensures 1 <= n <= 2
  {
    if descriptor == "J" || descriptor == "D" then 2 else 1
  }

  /** The JVM slots taken by a parameter list. */
  function TotalSize(params: seq<Param>): (n: nat)
    ensures n >= |params|
  {
    if params == [] then 0 else TotalSize(params[..|params| - 1]) + SlotSize(params[|params| - 1].descriptor)
  }

  function ObjectDescriptor(internalName: string): string { "L" + internalName + ";" }

  // Constants of the JVM ABI the mapper uses.
  const DefaultImplsSuffix := "$DefaultImpls"
  const DefaultParamsImplSuffix := "$default"
  const DelegatedPropertyNameSuffix := "$delegate"
  const ImplSuffixForInlineClassMembers := "-impl"
  const ErasedInlineConstructorName := "constructor-impl"
  const BoxJvmMethodName := "box" + ImplSuffixForInlineClassMembers
  const UnboxJvmMethodName := "unbox" + ImplSuffixForInlineClassMembers
  const ConstructorName := "<init>"
  const ClassInitializerName := "<clinit>"
  const InvokeName := "invoke"
  const VoidDescriptor := "V"
  const IntDescriptor := "I"
  const StringDescriptor := "Ljava/lang/String;"
  const ObjectTypeDescriptor := ObjectDescriptor("java/lang/Object")
  const DefaultConstructorMarkerDescriptor := ObjectDescriptor("kotlin/jvm/internal/" + "DefaultConstructorMarker")
}
