/** Call targets: which declaration a call really resolves to, which JVM class owns it, and
    with which invoke instruction it is called (JVM instructions `invokevirtual`,
    `invokespecial`, `invokestatic`, `invokeinterface`, section 6.5 of the Java Virtual Machine
    Specification). */
module Dispatch {
  import opened Descriptors

  // ------------------------------------------------------------ walking overridden declarations

  /** `g` is `f` or is reached from `f` through overridden declarations. */
  predicate Reaches(f: Fun, g: Fun)
    decreases f
  {
    f == g || exists o | o in f.overridden :: Reaches(o, g)
  }

  /** The first overridden declaration that is not in an interface. */
  function FirstClassCallable(fs: seq<Fun>): (r: Option<Fun>)
    ensures r.Some? ==> r.value in fs && !IsInterface(r.value.container)
    ensures r.None? ==> forall g | g in fs :: IsInterface(g.container)
  {
    if fs == [] then None
    else if !IsInterface(fs[0].container) then Some(fs[0])
    else FirstClassCallable(fs[1..])
  }

  /** The declaration found is the first one outside interfaces: every declaration before it
      is in an interface. */
  lemma {:induction false} FirstClassCallableIsFirst(fs: seq<Fun>)
    ensures var r := FirstClassCallable(fs);
      r.Some? ==> exists i | 0 <= i < |fs| :: fs[i] == r.value && forall j | 0 <= j < i :: IsInterface(fs[j].container)
  {
    if fs != [] && IsInterface(fs[0].container) {
      var rest := FirstClassCallable(fs[1..]);
      FirstClassCallableIsFirst(fs[1..]);
      if rest.Some? {
        var i :| 0 <= i < |fs[1..]| && fs[1..][i] == rest.value && forall j | 0 <= j < i :: IsInterface(fs[1..][j].container);
        assert fs[i + 1] == rest.value && forall j | 0 <= j < i + 1 :: IsInterface(fs[j].container);
      }
    } else if fs != [] {
      assert fs[0] == FirstClassCallable(fs).value;
    }
  }

  /** The declaration a call of `f` resolves to: fake overrides are unwrapped, preferring an
      overridden declaration in a class; a super call stops at a class's fake override whose
      overridden declarations are all in interfaces (unless it is @JvmDefault). */
  function SuperDeclaration(f: Fun, isSuperCall: bool): Result<Fun>
    decreases f
  {
    if f.kind != FakeOverride then Ok(f)
    else if f.overridden == [] then Err(MissingOverride)
    else
      var classCallable := FirstClassCallable(f.overridden);
      if classCallable.Some? then SuperDeclaration(classCallable.value, isSuperCall)
      else if isSuperCall && !f.flags.jvmDefault && !IsInterface(f.container) then Ok(f)
      else SuperDeclaration(f.overridden[0], isSuperCall)
  }

  /** The loop that unwraps fake overrides. */
  method FindSuperDeclaration(f: Fun, isSuperCall: bool) returns (r: Result<Fun>)
    ensures r == SuperDeclaration(f, isSuperCall)
  {
    var descriptor := f;
    while descriptor.kind == FakeOverride
      invariant SuperDeclaration(descriptor, isSuperCall) == SuperDeclaration(f, isSuperCall)
      decreases descriptor
    {
      var overridden := descriptor.overridden;
      if overridden == [] {
        return Err(MissingOverride);
      }
      var classCallable: Option<Fun> := None;
      var i := 0;
      while i < |overridden|
        invariant 0 <= i <= |overridden|
        invariant classCallable.None? ==> FirstClassCallable(overridden[i..]) == FirstClassCallable(overridden)
        invariant classCallable.Some? ==> classCallable == FirstClassCallable(overridden)
        decreases |overridden| - i, if classCallable.None? then 1 else 0
      {
        if !IsInterface(overridden[i].container) {
          classCallable := Some(overridden[i]);
          break;
        }
        assert overridden[i..][1..] == overridden[i + 1..];
        i := i + 1;
      }
      if classCallable.Some? {
        descriptor := classCallable.value;
        continue;
      } else if isSuperCall && !descriptor.flags.jvmDefault && !IsInterface(descriptor.container) {
        return Ok(descriptor);
      }
      descriptor := overridden[0];
    }
    return Ok(descriptor);
  }

  /** A successful walk ends on a declaration reached from the start, which is no fake override
      except where a super call stops at a class's fake override of interface members only. */
  lemma {:induction false} SuperDeclarationResult(f: Fun, isSuperCall: bool)
    ensures SuperDeclaration(f, isSuperCall).Ok? ==> Reaches(f, SuperDeclaration(f, isSuperCall).value)
    ensures SuperDeclaration(f, isSuperCall).Ok? ==>
      var r := SuperDeclaration(f, isSuperCall).value;
      r.kind != FakeOverride ||
      (isSuperCall && !r.flags.jvmDefault && !IsInterface(r.container) && r.overridden != [] &&
       forall g | g in r.overridden :: IsInterface(g.container))
    decreases f
  {
    if f.kind == FakeOverride && f.overridden != [] {
      var classCallable := FirstClassCallable(f.overridden);
      if classCallable.Some? {
        SuperDeclarationResult(classCallable.value, isSuperCall);
        if SuperDeclaration(f, isSuperCall).Ok? {
          ReachesThrough(f, classCallable.value, SuperDeclaration(f, isSuperCall).value);
        }
      } else if isSuperCall && !f.flags.jvmDefault && !IsInterface(f.container) {
      } else {
        SuperDeclarationResult(f.overridden[0], isSuperCall);
        if SuperDeclaration(f, isSuperCall).Ok? {
          ReachesThrough(f, f.overridden[0], SuperDeclaration(f, isSuperCall).value);
        }
      }
    }
  }

  /** Without a super call every fake override is unwrapped. */
  lemma NoFakeOverrideWithoutSuperCall(f: Fun)
    requires SuperDeclaration(f, false).Ok?
    ensures SuperDeclaration(f, false).value.kind != FakeOverride
  {
    SuperDeclarationResult(f, false);
  }

  /** The walk fails exactly on a fake override without overridden declarations on its path. */
  lemma {:induction false} SuperDeclarationFailure(f: Fun, isSuperCall: bool)
    requires SuperDeclaration(f, isSuperCall).Err?
    ensures SuperDeclaration(f, isSuperCall).error == MissingOverride
    ensures exists g :: Reaches(f, g) && g.kind == FakeOverride && g.overridden == []
    decreases f
  {
    if f.kind == FakeOverride && f.overridden == [] {
      assert Reaches(f, f);
    } else {
      var next := if FirstClassCallable(f.overridden).Some? then FirstClassCallable(f.overridden).value else f.overridden[0];
      SuperDeclarationFailure(next, isSuperCall);
      var g :| Reaches(next, g) && g.kind == FakeOverride && g.overridden == [];
      ReachesThrough(f, next, g);
    }
  }

  lemma ReachesThrough(f: Fun, o: Fun, g: Fun)
    requires o in f.overridden && Reaches(o, g)
    ensures Reaches(f, g)
  {
  }

  /** Follows the first overridden declaration up to a declaration that overrides nothing. */
  function FindBaseDeclaration(f: Fun): (r: Fun)
    ensures r.overridden == [] && Reaches(f, r)
    ensures f.overridden == [] ==> r == f
    decreases f
  {
    if f.overridden == [] then f
    else
      var r := FindBaseDeclaration(f.overridden[0]);
      ReachesThrough(f, f.overridden[0], r);
      r
  }

  /** A declaration stands for itself; anything else for its base declaration. */
  function FindAnyDeclaration(f: Fun): (r: Fun)
    ensures f.kind == Declaration ==> r == f
    ensures f.kind != Declaration ==> r.overridden == []
    ensures Reaches(f, r)
  {
    if f.kind == Declaration then f else FindBaseDeclaration(f)
  }

  // ------------------------------------------------------------ owners

  /** Where the `$default` method of a base declaration lives. */
  function KindForDefaultImplCall(base: Fun): (r: OwnerKind)
    ensures r == Package <==> base.container.InPackage?
    ensures r == DefaultImpls <==> IsInterface(base.container)
    ensures r == ErasedInlineClass <==> (IsInlineClass(base.container) && !IsInterface(base.container))
    ensures r == Implementation <==> (base.container.InClass? || base.container.InCallable?) &&
                                     !IsInterface(base.container) && !IsInlineClass(base.container)
  {
    if base.container.InPackage? then Package
    else if IsInterface(base.container) then DefaultImpls
    else if IsInlineClass(base.container) then ErasedInlineClass
    else Implementation
  }

  /** The class holding the bodies of an interface's non-@JvmDefault members: a class of its
      own, named after the interface. */
  function MapDefaultImpls(c: ClassInfo): (r: string)
    ensures c.internalName < r
  {
    c.internalName + DefaultImplsSuffix
  }

  predicate IsNonConstProperty(f: Fun)
  {
    f.shape.PropertyDeclaration? && !f.shape.property.isConst
  }

  /** The JVM class that owns a package member: for a member of a source file, its file class,
      or the facade class when a public facade is asked for and the member is public, not a
      mutable property and not reached through an accessor; for a compiled member, the facade or
      part class recorded for it; for built-ins, the fragment's name or `kotlin.Array`. */
  function InternalNameForPackageMemberOwner(f: Fun, publicFacade: bool): (r: Result<string>)
    ensures var d := if f.accessor.CallableAccessor? then f.accessor.callee else f;
      r.Err? <==> !d.container.InPackage? || d.container.origin in {Deserialized(None), UnknownOrigin}
    ensures r.Err? ==> r.error == PackageMemberNotFound
  {
    var isAccessor := f.accessor.CallableAccessor?;
    var d := if isAccessor then f.accessor.callee else f;
    match d.container
    case InPackage(SourceFile(fileClass, facadeClass)) =>
      if !publicFacade || IsNonConstProperty(d) || IsPrivate(d.visibility) || isAccessor then Ok(fileClass)
      else Ok(facadeClass)
    case InPackage(Deserialized(Some(classes))) => Ok(if publicFacade then classes.facade else classes.part)
    case InPackage(IrBuiltins(name)) => Ok(name)
    case InPackage(FictitiousArray) => Ok("kotlin.Array")
    case _ => Err(PackageMemberNotFound)
  }

  /** Private members, mutable properties and members reached through accessors are always called
      on the file class; only the public facade request can select the facade class. */
  lemma PackageMemberOwnerInSource(f: Fun, publicFacade: bool, fileClass: string, facadeClass: string)
    requires f.accessor.NoAccessor? && f.container == InPackage(SourceFile(fileClass, facadeClass))
    ensures InternalNameForPackageMemberOwner(f, publicFacade) ==
      if publicFacade && !IsPrivate(f.visibility) && !IsNonConstProperty(f) then Ok(facadeClass) else Ok(fileClass)
  {
  }

  /** An accessor is owned by the file class of the member it calls, never by a facade. */
  lemma AccessorOwnedByFileClass(f: Fun, publicFacade: bool, fileClass: string, facadeClass: string)
    requires f.accessor.CallableAccessor? && f.accessor.callee.container == InPackage(SourceFile(fileClass, facadeClass))
    ensures InternalNameForPackageMemberOwner(f, publicFacade) == Ok(fileClass)
  {
  }

  predicate IsLocalFunction(f: Fun) { f.shape.LocalFunction? }

  /** The JVM class that owns a declaration: the class generated for a local function, the
      constructed class of a constructor, the package-member owner or the containing class. */
  function MapOwner(f: Fun, publicFacade: bool): (r: Result<string>)
    ensures !IsLocalFunction(f) && f.container.InClass? ==> r == Ok(f.container.cls.internalName)
    ensures !IsLocalFunction(f) && !IsConstructor(f) && f.container.InPackage? ==> r == InternalNameForPackageMemberOwner(f, publicFacade)
    ensures !IsLocalFunction(f) && f.container.InCallable? ==> r == Err(UnsupportedOwner)
  {
    if IsLocalFunction(f) then Ok(f.names.localClassName)
    else if IsConstructor(f) then
      if f.container.InClass? then Ok(f.container.cls.internalName) else Err(UnsupportedOwner)
    else match f.container
      case InPackage(_) => InternalNameForPackageMemberOwner(f, publicFacade)
      case InClass(c) => Ok(c.internalName)
      case _ => Err(UnsupportedOwner)
  }

  // ------------------------------------------------------------ class ids of compiled containers

  /** Parts joined by a separator. */
  function Join(parts: seq<string>, sep: string): string
  {
    if parts == [] then ""
    else if |parts| == 1 then parts[0]
    else Join(parts[..|parts| - 1], sep) + sep + parts[|parts| - 1]
  }

  /** The JVM internal name of a class id: package with `/`, nested classes with `$`. */
  function JvmInternalName(id: ClassId): string
  {
    if id.packageSegments == [] then Join(id.relativeName, "$")
    else Join(id.packageSegments, "/") + "/" + Join(id.relativeName, "$")
  }

  /** The class id of the container of a compiled class member, as written: for an interface a
      top-level class named after the interface's short name with `$DefaultImpls`. */
  function ContainerClassIdAsWritten(c: ClassInfo): (r: ClassId)
    requires |c.id.relativeName| > 0
    ensures c.kind != InterfaceKind ==> r == c.id
    ensures c.kind == InterfaceKind ==> r.packageSegments == c.id.packageSegments && |r.relativeName| == 1
  {
    if c.kind == InterfaceKind then
      ClassId(c.id.packageSegments, [c.id.relativeName[|c.id.relativeName| - 1] + DefaultImplsSuffix])
    else c.id
  }

  /** The class id of the container of a compiled class member: for an interface its DefaultImpls
      class, which is nested where the interface is. */
  function ContainerClassId(c: ClassInfo): (r: ClassId)
    requires |c.id.relativeName| > 0
    ensures c.kind != InterfaceKind ==> r == c.id
    ensures c.kind == InterfaceKind ==> r.packageSegments == c.id.packageSegments && |r.relativeName| == |c.id.relativeName|
  {
    var n := |c.id.relativeName|;
    if c.kind == InterfaceKind then
      ClassId(c.id.packageSegments, c.id.relativeName[..n - 1] + [c.id.relativeName[n - 1] + DefaultImplsSuffix])
    else c.id
  }

  lemma {:induction false} JoinExtendLast(parts: seq<string>, sep: string, suffix: string)
    requires |parts| > 0
    ensures Join(parts[..|parts| - 1] + [parts[|parts| - 1] + suffix], sep) == Join(parts, sep) + suffix
  {
    var n := |parts|;
    var extended := parts[..n - 1] + [parts[n - 1] + suffix];
    if n > 1 {
      assert extended[..n - 1] == parts[..n - 1];
    }
  }

  /** The container class id names the same class as the DefaultImpls class that calls go to. */
  lemma ContainerClassIdIsDefaultImpls(c: ClassInfo)
    requires |c.id.relativeName| > 0 && c.kind == InterfaceKind
    requires c.internalName == JvmInternalName(c.id)
    ensures JvmInternalName(ContainerClassId(c)) == MapDefaultImpls(c)
  {
    JoinExtendLast(c.id.relativeName, "$", DefaultImplsSuffix);
  }

  /** For a top-level interface the version as written agrees with the corrected one. */
  lemma TopLevelInterfaceContainer(c: ClassInfo)
    requires |c.id.relativeName| == 1
    ensures ContainerClassIdAsWritten(c) == ContainerClassId(c)
  {
  }

  /** For an interface nested in a class the version as written loses the outer class: it names
      a shorter class than the DefaultImpls class, so never the same one. */
  lemma NestedInterfaceContainerAsWritten(c: ClassInfo)
    requires |c.id.relativeName| >= 2 && c.kind == InterfaceKind
    requires c.internalName == JvmInternalName(c.id)
    ensures |JvmInternalName(ContainerClassIdAsWritten(c))| < |MapDefaultImpls(c)|
    ensures JvmInternalName(ContainerClassIdAsWritten(c)) != MapDefaultImpls(c)
  {
  }

  // ------------------------------------------------------------ callable methods

  /** The erased signature a call needs: of which declaration, for which owner kind, and whether
      in the static form used for members of inline classes. Generic signatures are skipped. */
  datatype SignatureRequest = SignatureRequest(f: Fun, kind: OwnerKind, inlineErased: bool)

  /** The `$default` method a call with default arguments goes to, computed on demand. */
  datatype DefaultMethodRequest = DefaultMethodRequest(base: Fun, kind: OwnerKind)

  /** Everything the code generator needs to emit a call. */
  datatype CallableMethod = CallableMethod(
    owner: string,
    defaultImplOwner: string,
    defaultMethod: DefaultMethodRequest,
    signature: SignatureRequest,
    opcode: Opcode,
    thisClass: Option<string>,
    dispatchReceiver: Option<ClassInfo>,
    receiverParameterType: Option<string>,
    extensionReceiver: Option<KType>,
    calleeType: Option<string>,
    returnType: KType,
    isInterfaceMember: bool,
    isDefaultMethodInInterface: bool)

  function Call(owner: string, defaultImplOwner: string, defaultMethod: DefaultMethodRequest, signature: SignatureRequest,
                opcode: Opcode, thisClass: Option<string>, dispatchReceiver: Option<ClassInfo>, returnType: KType,
                isInterfaceMember: bool, isDefaultMethodInInterface: bool): CallableMethod
  {
    CallableMethod(owner, defaultImplOwner, defaultMethod, signature, opcode, thisClass, dispatchReceiver,
                   None, None, None, returnType, isInterfaceMember, isDefaultMethodInInterface)
  }

  /** A constructor call: `invokespecial` on the constructed class. */
  function ConstructorCall(descriptor: Fun): Result<CallableMethod>
  {
    match MapOwner(descriptor, true)
    case Err(e) => Err(e)
    case Ok(owner) =>
      Ok(Call(owner, owner, DefaultMethodRequest(descriptor, Implementation), SignatureRequest(descriptor, Implementation, false),
              InvokeSpecial, None, None, descriptor.returnType, false, false))
  }

  /** A call from an interface to a member of that interface that is a super call, private or an
      accessor: `invokespecial` for Java and @JvmDefault members, else `invokestatic` of the body
      in DefaultImpls. */
  function InterfaceSelfCall(descriptor: Fun, currentOwner: ClassInfo, functionDescriptor: Fun, declaration: Fun,
                             declarationOwner: ClassInfo, ownerForDefaultImpl: string, defaultMethod: DefaultMethodRequest,
                             isDefaultMethodInInterface: bool): CallableMethod
  {
    var thisClass := currentOwner.internalName;
    if declarationOwner.isJava || declaration.flags.jvmDefault then
      Call(thisClass, ownerForDefaultImpl, defaultMethod, SignatureRequest(functionDescriptor, Implementation, false),
           InvokeSpecial, Some(thisClass), Some(currentOwner), functionDescriptor.returnType, true, isDefaultMethodInInterface)
    else
      var calleeIsJvmDefault := descriptor.accessor.CallableAccessor? && descriptor.accessor.callee.flags.jvmDefault;
      Call(if calleeIsJvmDefault then currentOwner.internalName else MapDefaultImpls(currentOwner), ownerForDefaultImpl,
           defaultMethod, SignatureRequest(descriptor, DefaultImpls, false), InvokeStatic, Some(thisClass), Some(currentOwner),
           descriptor.returnType, calleeIsJvmDefault, isDefaultMethodInInterface)
  }

  predicate IsInlineClassConstructorAccessor(f: Fun)
  {
    f.accessor.CallableAccessor? && f.accessor.forConstructor && IsInlineClass(f.accessor.callee.container)
  }

  /** A call into an inline class goes to its erased static form, unless it goes through an
      accessor other than an inline-class constructor accessor. */
  predicate ToInlinedErasedClass(currentOwner: ClassInfo, functionDescriptor: Fun)
  {
    currentOwner.isInline && (!IsAccessor(functionDescriptor) || IsInlineClassConstructorAccessor(functionDescriptor))
  }

  /** Static declarations, static accessors, `@JvmStatic` members and members of an erased
      inline class are called with `invokestatic`. */
  predicate IsStaticInvocation(fd: Fun, toInlinedErasedClass: bool)
  {
    fd.flags.staticDeclaration || IsStaticAccessor(fd) || fd.flags.jvmStatic || toInlinedErasedClass
  }

  /** The class an ordinary member call goes to: the declaring class when an interface calls a
      class member or the current class is a function class, else the current class. */
  function Receiver(currentOwner: ClassInfo, declarationOwner: ClassInfo): ClassInfo
  {
    if (IsJvmInterface(currentOwner) && !IsJvmInterface(declarationOwner)) || currentOwner.isFunctionClass then declarationOwner
    else currentOwner
  }

  /** The calls an interface makes to a member of an interface that are not dispatched: super
      calls, private calls and accessor calls. */
  predicate IsInterfaceSelfCall(descriptor: Fun, currentOwner: ClassInfo, declarationOwner: ClassInfo, superCall: bool)
  {
    IsJvmInterface(currentOwner) && IsJvmInterface(declarationOwner) &&
    (superCall || descriptor.visibility == Private || IsAccessor(descriptor))
  }

  /** Any other call of a class member: static, interface, special or virtual, on the declaring
      class where the current class is an interface that inherits a class member or a function
      class, else on the current class. Also returns the declaration actually called. */
  function OrdinaryMemberCall(descriptor: Fun, currentOwner: ClassInfo, functionDescriptor: Fun, declarationOwner: ClassInfo,
                              superCall: bool, ownerForDefaultImpl: string, defaultMethod: DefaultMethodRequest,
                              isDefaultMethodInInterface: bool): (CallableMethod, Fun)
  {
    var originalIsInterface := IsJvmInterface(declarationOwner);
    var currentIsInterface := IsJvmInterface(currentOwner);
    var isInterface := currentIsInterface && originalIsInterface;
    var toInlinedErasedClass := ToInlinedErasedClass(currentOwner, functionDescriptor);
    var fd := if toInlinedErasedClass then descriptor else functionDescriptor;
    var isStaticInvocation := IsStaticInvocation(fd, toInlinedErasedClass);
    var opcode :=
      if isStaticInvocation then InvokeStatic
      else if isInterface then InvokeInterface
      else if superCall || (IsPrivate(fd.visibility) && !fd.flags.isSuspend) then InvokeSpecial
      else InvokeVirtual;
    var isInterfaceMember :=
      if isStaticInvocation then currentIsInterface && currentOwner.isJava
      else if isInterface then true
      else superCall && currentIsInterface;
    var functionToCall := if fd.reflectedBuiltin.Some? && !superCall && !toInlinedErasedClass then fd.reflectedBuiltin.value else fd;
    var signature := SignatureRequest(functionToCall, Implementation, toInlinedErasedClass);
    var receiver := Receiver(currentOwner, declarationOwner);
    (Call(receiver.internalName, ownerForDefaultImpl, defaultMethod, signature, opcode, Some(receiver.internalName), Some(receiver),
          functionToCall.returnType, isInterfaceMember, isDefaultMethodInInterface), fd)
  }

  /** A call of a member of class `currentOwner` that resolves to `functionDescriptor`. */
  function ClassMemberCall(descriptor: Fun, currentOwner: ClassInfo, functionDescriptor: Fun, superCall: bool): (r: Result<(CallableMethod, Fun)>)
    ensures r.Ok? && r.value.0.opcode == InvokeInterface ==> r.value.0.isInterfaceMember
    ensures r.Ok? && r.value.0.isInterfaceMember ==> IsJvmInterface(currentOwner)
  {
    var declaration := FindAnyDeclaration(functionDescriptor);
    var base := FindBaseDeclaration(functionDescriptor);
    if !declaration.container.InClass? || !base.container.InClass? then Err(NotAClassMember)
    else
      var declarationOwner := declaration.container.cls;
      var ownerForDefault := base.container.cls;
      var isDefaultMethodInInterface := IsJvmInterface(ownerForDefault) && base.flags.jvmDefault;
      var ownerForDefaultImpl :=
        if IsJvmInterface(ownerForDefault) && !base.flags.jvmDefault then MapDefaultImpls(ownerForDefault) else ownerForDefault.internalName;
      var defaultMethod := DefaultMethodRequest(base, KindForDefaultImplCall(base));
      if IsInterfaceSelfCall(descriptor, currentOwner, declarationOwner, superCall) then
        Ok((InterfaceSelfCall(descriptor, currentOwner, functionDescriptor, declaration, declarationOwner, ownerForDefaultImpl,
                              defaultMethod, isDefaultMethodInInterface), functionDescriptor))
      else
        Ok(OrdinaryMemberCall(descriptor, currentOwner, functionDescriptor, declarationOwner, superCall, ownerForDefaultImpl,
                              defaultMethod, isDefaultMethodInInterface))
  }

  /** A call of a package member (static), of a constructor outside a class (special), or of a
      member of anything else (virtual). */
  function OtherMemberCall(descriptor: Fun, functionDescriptor: Fun): (r: Result<(CallableMethod, Fun)>)
    ensures r.Ok? ==> r.value.0.opcode != InvokeInterface && !r.value.0.isInterfaceMember
  {
    match MapOwner(functionDescriptor, true)
    case Err(e) => Err(e)
    case Ok(owner) =>
      var signature := SignatureRequest(functionDescriptor, Implementation, false);
      var defaultMethod := DefaultMethodRequest(functionDescriptor, KindForDefaultImplCall(functionDescriptor));
      var opcode :=
        if descriptor.container.InPackage? then InvokeStatic
        else if IsConstructor(functionDescriptor) then InvokeSpecial
        else InvokeVirtual;
      var thisClass := if opcode == InvokeVirtual then Some(owner) else None;
      var dispatchReceiver :=
        if opcode == InvokeVirtual && functionDescriptor.container.InClass? then Some(functionDescriptor.container.cls) else None;
      Ok((Call(owner, owner, defaultMethod, signature, opcode, thisClass, dispatchReceiver, functionDescriptor.returnType, false, false),
          functionDescriptor))
  }

  /** The last touches on a call to `fd`: the class of a local function, the extension
      receiver, and before JVM 1.8 only an `invokeinterface` call is an interface-member call. */
  function CompleteCall(m: CallableMethod, fd: Fun, jvm8: bool): CallableMethod
  {
    m.(calleeType := if IsLocalFunction(fd) then Some(m.owner) else None,
       receiverParameterType := if fd.extensionReceiver.Some? then Some(fd.extensionReceiver.value.descriptor) else None,
       extensionReceiver := fd.extensionReceiver,
       isInterfaceMember := if jvm8 then m.isInterfaceMember else m.opcode == InvokeInterface)
  }

  /** The callable method for a call of `descriptor`. `jvm8` tells whether the target is JVM 1.8
      or later: before it, only `invokeinterface` calls are interface-member calls. */
  function MapToCallableMethod(descriptor: Fun, superCall: bool, kind: Option<OwnerKind>, jvm8: bool): (r: Result<CallableMethod>)
    ensures r.Ok? && r.value.opcode == InvokeInterface ==> r.value.isInterfaceMember
    ensures r.Ok? && r.value.isInterfaceMember ==> descriptor.container.InClass? && IsJvmInterface(descriptor.container.cls)
  {
    if IsConstructor(descriptor) && kind != Some(ErasedInlineClass) then ConstructorCall(descriptor)
    else match SuperDeclaration(descriptor, superCall)
      case Err(e) => Err(e)
      case Ok(functionDescriptor) =>
        var call := if descriptor.container.InClass? then ClassMemberCall(descriptor, descriptor.container.cls, functionDescriptor, superCall)
                    else OtherMemberCall(descriptor, functionDescriptor);
        match call
        case Err(e) => Err(e)
        case Ok((m, fd)) => Ok(CompleteCall(m, fd, jvm8))
  }

  // ------------------------------------------------------------ the dispatch table

  /** Constructors of a class are called with `invokespecial` on that class, without a receiver
      class and with their `$default` variant in the same class. */
  lemma ConstructorDispatch(descriptor: Fun, superCall: bool, kind: Option<OwnerKind>, jvm8: bool)
    requires IsConstructor(descriptor) && kind != Some(ErasedInlineClass) && descriptor.container.InClass?
    ensures var r := MapToCallableMethod(descriptor, superCall, kind, jvm8);
      r.Ok? && r.value.opcode == InvokeSpecial && r.value.owner == descriptor.container.cls.internalName &&
      r.value.defaultImplOwner == r.value.owner && r.value.thisClass.None? && !r.value.isInterfaceMember &&
      r.value.defaultMethod == DefaultMethodRequest(descriptor, Implementation)
  {
  }

  /** The calls that go through the class-member table: a call of a member of a class, other
      than a constructor called as such, whose resolved and base declarations are both class
      members. */
  predicate InClassTable(descriptor: Fun, superCall: bool, kind: Option<OwnerKind>)
  {
    !(IsConstructor(descriptor) && kind != Some(ErasedInlineClass)) && descriptor.container.InClass? &&
    SuperDeclaration(descriptor, superCall).Ok? &&
    FindAnyDeclaration(SuperDeclaration(descriptor, superCall).value).container.InClass? &&
    FindBaseDeclaration(SuperDeclaration(descriptor, superCall).value).container.InClass?
  }

  /** The declaration a call resolves to once fake overrides are unwrapped. */
  function Resolved(descriptor: Fun, superCall: bool): Fun
    requires SuperDeclaration(descriptor, superCall).Ok?
  {
    SuperDeclaration(descriptor, superCall).value
  }

  /** The class declaring the member a class-member call resolves to. */
  function DeclarationOwner(descriptor: Fun, superCall: bool, kind: Option<OwnerKind>): ClassInfo
    requires InClassTable(descriptor, superCall, kind)
  {
    FindAnyDeclaration(Resolved(descriptor, superCall)).container.cls
  }

  /** The descriptor an ordinary member call is made with: the original one in an erased inline
      class, else the resolved one. */
  function CalledDescriptor(descriptor: Fun, superCall: bool): Fun
    requires descriptor.container.InClass? && SuperDeclaration(descriptor, superCall).Ok?
  {
    if ToInlinedErasedClass(descriptor.container.cls, Resolved(descriptor, superCall)) then descriptor
    else Resolved(descriptor, superCall)
  }

  /** A call in the class-member table is the class-member call, completed. */
  lemma ClassTableCall(descriptor: Fun, superCall: bool, kind: Option<OwnerKind>, jvm8: bool)
    requires InClassTable(descriptor, superCall, kind)
    ensures ClassMemberCall(descriptor, descriptor.container.cls, Resolved(descriptor, superCall), superCall).Ok?
    ensures var c := ClassMemberCall(descriptor, descriptor.container.cls, Resolved(descriptor, superCall), superCall).value;
      MapToCallableMethod(descriptor, superCall, kind, jvm8) == Ok(CompleteCall(c.0, c.1, jvm8))
  {
  }

  /** A super, private or accessor call from an interface to a member of an interface that is
      declared in Java or is `@JvmDefault` is `invokespecial` on the current interface, and an
      interface-member call from JVM 1.8 on. */
  lemma InterfaceSpecialDispatch(descriptor: Fun, superCall: bool, kind: Option<OwnerKind>, jvm8: bool)
    requires InClassTable(descriptor, superCall, kind)
    requires IsInterfaceSelfCall(descriptor, descriptor.container.cls, DeclarationOwner(descriptor, superCall, kind), superCall)
    requires DeclarationOwner(descriptor, superCall, kind).isJava || FindAnyDeclaration(Resolved(descriptor, superCall)).flags.jvmDefault
    ensures var r := MapToCallableMethod(descriptor, superCall, kind, jvm8);
      var current := descriptor.container.cls.internalName;
      r.Ok? && r.value.opcode == InvokeSpecial && r.value.owner == current && r.value.thisClass == Some(current) &&
      r.value.signature == SignatureRequest(Resolved(descriptor, superCall), Implementation, false) &&
      r.value.isInterfaceMember == jvm8
  {
    ClassTableCall(descriptor, superCall, kind, jvm8);
  }

  /** Any other super, private or accessor call from an interface to a member of an interface
      is `invokestatic` of the body in the current interface's DefaultImpls class, with the
      DefaultImpls signature of the called descriptor; an accessor of a `@JvmDefault` callee
      stays on the interface itself and is then an interface-member call from JVM 1.8 on. */
  lemma InterfaceDefaultImplsDispatch(descriptor: Fun, superCall: bool, kind: Option<OwnerKind>, jvm8: bool)
    requires InClassTable(descriptor, superCall, kind)
    requires IsInterfaceSelfCall(descriptor, descriptor.container.cls, DeclarationOwner(descriptor, superCall, kind), superCall)
    requires !DeclarationOwner(descriptor, superCall, kind).isJava && !FindAnyDeclaration(Resolved(descriptor, superCall)).flags.jvmDefault
    ensures var r := MapToCallableMethod(descriptor, superCall, kind, jvm8);
      var current := descriptor.container.cls;
      var calleeIsJvmDefault := descriptor.accessor.CallableAccessor? && descriptor.accessor.callee.flags.jvmDefault;
      r.Ok? && r.value.opcode == InvokeStatic && r.value.thisClass == Some(current.internalName) &&
      r.value.owner == (if calleeIsJvmDefault then current.internalName else MapDefaultImpls(current)) &&
      r.value.signature == SignatureRequest(descriptor, DefaultImpls, false) &&
      r.value.isInterfaceMember == (jvm8 && calleeIsJvmDefault)
  {
    ClassTableCall(descriptor, superCall, kind, jvm8);
  }

  /** Outside those interface calls, a static declaration, a static accessor, a `@JvmStatic`
      member or a member of an erased inline class is called with `invokestatic` on the
      receiver class; it is an interface-member call only on a Java interface, from JVM 1.8 on. */
  lemma StaticInvocationDispatch(descriptor: Fun, superCall: bool, kind: Option<OwnerKind>, jvm8: bool)
    requires InClassTable(descriptor, superCall, kind)
    requires !IsInterfaceSelfCall(descriptor, descriptor.container.cls, DeclarationOwner(descriptor, superCall, kind), superCall)
    requires IsStaticInvocation(CalledDescriptor(descriptor, superCall),
                                ToInlinedErasedClass(descriptor.container.cls, Resolved(descriptor, superCall)))
    ensures var r := MapToCallableMethod(descriptor, superCall, kind, jvm8);
      var current := descriptor.container.cls;
      var receiver := Receiver(current, DeclarationOwner(descriptor, superCall, kind));
      r.Ok? && r.value.opcode == InvokeStatic && r.value.owner == receiver.internalName &&
      r.value.thisClass == Some(receiver.internalName) &&
      r.value.isInterfaceMember == (jvm8 && IsJvmInterface(current) && current.isJava)
  {
    ClassTableCall(descriptor, superCall, kind, jvm8);
  }

  /** A class-member call is `invokeinterface` exactly when an interface calls a member of an
      interface, not as a super, private or accessor call, and not statically; it then goes to
      the receiver class (the current interface, or the declaring one for a function class)
      and is an interface-member call. */
  lemma InterfaceInvokeExactly(descriptor: Fun, superCall: bool, kind: Option<OwnerKind>, jvm8: bool)
    requires InClassTable(descriptor, superCall, kind)
    ensures var r := MapToCallableMethod(descriptor, superCall, kind, jvm8);
      var current := descriptor.container.cls;
      var declarationOwner := DeclarationOwner(descriptor, superCall, kind);
      r.Ok? &&
      (r.value.opcode == InvokeInterface <==>
         !IsInterfaceSelfCall(descriptor, current, declarationOwner, superCall) &&
         !IsStaticInvocation(CalledDescriptor(descriptor, superCall), ToInlinedErasedClass(current, Resolved(descriptor, superCall))) &&
         IsJvmInterface(current) && IsJvmInterface(declarationOwner)) &&
      (r.value.opcode == InvokeInterface ==>
         r.value.owner == Receiver(current, declarationOwner).internalName && r.value.isInterfaceMember)
  {
    ClassTableCall(descriptor, superCall, kind, jvm8);
  }

  /** Otherwise a super call, or a call of a private member that is not a suspend function, is
      `invokespecial` on the receiver class; it is an interface-member call only for a super call
      from an interface, from JVM 1.8 on. */
  lemma SpecialMemberDispatch(descriptor: Fun, superCall: bool, kind: Option<OwnerKind>, jvm8: bool)
    requires InClassTable(descriptor, superCall, kind)
    requires !IsInterfaceSelfCall(descriptor, descriptor.container.cls, DeclarationOwner(descriptor, superCall, kind), superCall)
    requires !IsStaticInvocation(CalledDescriptor(descriptor, superCall),
                                 ToInlinedErasedClass(descriptor.container.cls, Resolved(descriptor, superCall)))
    requires !(IsJvmInterface(descriptor.container.cls) && IsJvmInterface(DeclarationOwner(descriptor, superCall, kind)))
    requires var fd := CalledDescriptor(descriptor, superCall);
      superCall || (IsPrivate(fd.visibility) && !fd.flags.isSuspend)
    ensures var r := MapToCallableMethod(descriptor, superCall, kind, jvm8);
      var current := descriptor.container.cls;
      var receiver := Receiver(current, DeclarationOwner(descriptor, superCall, kind));
      r.Ok? && r.value.opcode == InvokeSpecial && r.value.owner == receiver.internalName &&
      r.value.thisClass == Some(receiver.internalName) &&
      r.value.isInterfaceMember == (jvm8 && superCall && IsJvmInterface(current))
  {
    ClassTableCall(descriptor, superCall, kind, jvm8);
  }

  /** Every remaining class-member call is `invokevirtual` on the receiver class, and never an
      interface-member call. */
  lemma VirtualDispatch(descriptor: Fun, superCall: bool, kind: Option<OwnerKind>, jvm8: bool)
    requires InClassTable(descriptor, superCall, kind)
    requires !IsInterfaceSelfCall(descriptor, descriptor.container.cls, DeclarationOwner(descriptor, superCall, kind), superCall)
    requires !IsStaticInvocation(CalledDescriptor(descriptor, superCall),
                                 ToInlinedErasedClass(descriptor.container.cls, Resolved(descriptor, superCall)))
    requires !(IsJvmInterface(descriptor.container.cls) && IsJvmInterface(DeclarationOwner(descriptor, superCall, kind)))
    requires var fd := CalledDescriptor(descriptor, superCall);
      !superCall && !(IsPrivate(fd.visibility) && !fd.flags.isSuspend)
    ensures var r := MapToCallableMethod(descriptor, superCall, kind, jvm8);
      var receiver := Receiver(descriptor.container.cls, DeclarationOwner(descriptor, superCall, kind));
      r.Ok? && r.value.opcode == InvokeVirtual && r.value.owner == receiver.internalName &&
      r.value.thisClass == Some(receiver.internalName) && !r.value.isInterfaceMember
  {
    ClassTableCall(descriptor, superCall, kind, jvm8);
  }

  /** A member of a script is a member of the script's class: a public function declared in a
      script, overriding nothing, is called with `invokevirtual` on that class, which is also
      its owner. */
  lemma ScriptMemberDispatch(descriptor: Fun, superCall: bool, kind: Option<OwnerKind>, jvm8: bool)
    requires IsScript(descriptor.container) && !IsConstructor(descriptor) && !IsLocalFunction(descriptor)
    requires descriptor.kind == Declaration && descriptor.overridden == [] && descriptor.accessor.NoAccessor?
    requires !descriptor.container.cls.isInline && !descriptor.container.cls.isFunctionClass
    requires !descriptor.flags.staticDeclaration && !descriptor.flags.jvmStatic && !IsPrivate(descriptor.visibility)
    requires !superCall
    ensures var r := MapToCallableMethod(descriptor, superCall, kind, jvm8);
      r.Ok? && r.value.opcode == InvokeVirtual && Ok(r.value.owner) == MapOwner(descriptor, true) &&
      r.value.owner == descriptor.container.cls.internalName && r.value.thisClass == Some(r.value.owner) &&
      !r.value.isInterfaceMember
  {
  }

  /** Package members are called statically, without `this`. */
  lemma PackageMemberDispatch(descriptor: Fun, superCall: bool, kind: Option<OwnerKind>, jvm8: bool)
    requires !IsConstructor(descriptor) && descriptor.container.InPackage?
    requires MapToCallableMethod(descriptor, superCall, kind, jvm8).Ok?
    ensures var m := MapToCallableMethod(descriptor, superCall, kind, jvm8).value;
      m.opcode == InvokeStatic && m.thisClass.None? && m.dispatchReceiver.None? && m.defaultImplOwner == m.owner
  {
  }

  /** A super call of a class member never dispatches dynamically. */
  lemma SuperCallsAreNotVirtual(descriptor: Fun, kind: Option<OwnerKind>, jvm8: bool)
    requires descriptor.container.InClass?
    requires MapToCallableMethod(descriptor, true, kind, jvm8).Ok?
    ensures var m := MapToCallableMethod(descriptor, true, kind, jvm8).value;
      m.opcode == InvokeSpecial || m.opcode == InvokeStatic
  {
  }

  /** `invokeinterface` always goes to an interface and is an interface-member call. */
  lemma InterfaceDispatch(descriptor: Fun, superCall: bool, kind: Option<OwnerKind>, jvm8: bool)
    requires MapToCallableMethod(descriptor, superCall, kind, jvm8).Ok?
    requires MapToCallableMethod(descriptor, superCall, kind, jvm8).value.opcode == InvokeInterface
    ensures var m := MapToCallableMethod(descriptor, superCall, kind, jvm8).value;
      m.dispatchReceiver.Some? && IsJvmInterface(m.dispatchReceiver.value) && m.isInterfaceMember &&
      m.owner == m.dispatchReceiver.value.internalName
  {
    var functionDescriptor := SuperDeclaration(descriptor, superCall).value;
    if descriptor.container.InClass? {
      var call := ClassMemberCall(descriptor, descriptor.container.cls, functionDescriptor, superCall);
      ClassMemberInterfaceCall(descriptor, descriptor.container.cls, functionDescriptor, superCall);
    }
  }

  lemma ClassMemberInterfaceCall(descriptor: Fun, currentOwner: ClassInfo, functionDescriptor: Fun, superCall: bool)
    requires ClassMemberCall(descriptor, currentOwner, functionDescriptor, superCall).Ok?
    requires ClassMemberCall(descriptor, currentOwner, functionDescriptor, superCall).value.0.opcode == InvokeInterface
    ensures var m := ClassMemberCall(descriptor, currentOwner, functionDescriptor, superCall).value.0;
      m.dispatchReceiver.Some? && IsJvmInterface(m.dispatchReceiver.value) && m.isInterfaceMember &&
      m.owner == m.dispatchReceiver.value.internalName
  {
  }

  /** From JVM 1.8 on, a super call that an interface makes with `invokespecial` is an
      interface-member call, whether the member is declared in an interface or in a class such
      as `Any`; before 1.8 it is not. */
  lemma InterfaceSuperCallMember(descriptor: Fun, superCall: bool, kind: Option<OwnerKind>, jvm8: bool)
    requires MapToCallableMethod(descriptor, superCall, kind, jvm8).Ok?
    ensures var m := MapToCallableMethod(descriptor, superCall, kind, jvm8).value;
      !(IsConstructor(descriptor) && kind != Some(ErasedInlineClass)) && superCall &&
      descriptor.container.InClass? && IsJvmInterface(descriptor.container.cls) && m.opcode == InvokeSpecial
      ==> m.isInterfaceMember == jvm8
  {
  }

  /** A super call inside a Kotlin interface to a member declared in a Kotlin interface without
      @JvmDefault goes statically to the interface's DefaultImpls class, with the DefaultImpls
      signature of the called descriptor. */
  lemma DefaultImplsSuperCall(descriptor: Fun, kind: Option<OwnerKind>, jvm8: bool)
    requires !IsConstructor(descriptor) && descriptor.container.InClass? && descriptor.container.cls.kind == InterfaceKind
    requires descriptor.accessor.NoAccessor?
    requires SuperDeclaration(descriptor, true).Ok?
    requires var declaration := FindAnyDeclaration(SuperDeclaration(descriptor, true).value);
      IsInterface(declaration.container) && !declaration.container.cls.isJava && !declaration.flags.jvmDefault
    requires FindBaseDeclaration(SuperDeclaration(descriptor, true).value).container.InClass?
    ensures var r := MapToCallableMethod(descriptor, true, kind, jvm8);
      r.Ok? && r.value.opcode == InvokeStatic && r.value.owner == descriptor.container.cls.internalName + "$DefaultImpls" &&
      r.value.signature == SignatureRequest(descriptor, DefaultImpls, false) &&
      r.value.thisClass == Some(descriptor.container.cls.internalName)
  {
  }

  /** Members of an inline class (other than through accessors) are called as static methods of
      the erased class, with the inline-class signature of the original descriptor. */
  lemma InlineClassMemberDispatch(descriptor: Fun, superCall: bool, kind: Option<OwnerKind>, jvm8: bool)
    requires !(IsConstructor(descriptor) && kind != Some(ErasedInlineClass))
    requires descriptor.container.InClass? && descriptor.container.cls.isInline && !IsJvmInterface(descriptor.container.cls)
    requires SuperDeclaration(descriptor, superCall).Ok? && !IsAccessor(SuperDeclaration(descriptor, superCall).value)
    requires MapToCallableMethod(descriptor, superCall, kind, jvm8).Ok?
    ensures var m := MapToCallableMethod(descriptor, superCall, kind, jvm8).value;
      m.opcode == InvokeStatic && m.signature == SignatureRequest(descriptor, Implementation, true)
  {
  }

  /** The `$default` method of a class member belongs with its base declaration: in DefaultImpls
      for a non-@JvmDefault interface member, else in the base declaration's class. */
  lemma DefaultMethodOfClassMember(descriptor: Fun, superCall: bool, kind: Option<OwnerKind>, jvm8: bool)
    requires !IsConstructor(descriptor) && descriptor.container.InClass?
    requires MapToCallableMethod(descriptor, superCall, kind, jvm8).Ok?
    ensures var m := MapToCallableMethod(descriptor, superCall, kind, jvm8).value;
      var base := FindBaseDeclaration(SuperDeclaration(descriptor, superCall).value);
      base.container.InClass? && m.defaultMethod == DefaultMethodRequest(base, KindForDefaultImplCall(base)) &&
      m.defaultImplOwner == (if IsJvmInterface(base.container.cls) && !base.flags.jvmDefault then MapDefaultImpls(base.container.cls)
                             else base.container.cls.internalName) &&
      m.isDefaultMethodInInterface == (IsJvmInterface(base.container.cls) && base.flags.jvmDefault)
  {
    ClassMemberDefaultMethod(descriptor, descriptor.container.cls, SuperDeclaration(descriptor, superCall).value, superCall);
  }

  lemma ClassMemberDefaultMethod(descriptor: Fun, currentOwner: ClassInfo, functionDescriptor: Fun, superCall: bool)
    requires ClassMemberCall(descriptor, currentOwner, functionDescriptor, superCall).Ok?
    ensures var m := ClassMemberCall(descriptor, currentOwner, functionDescriptor, superCall).value.0;
      var base := FindBaseDeclaration(functionDescriptor);
      base.container.InClass? && m.defaultMethod == DefaultMethodRequest(base, KindForDefaultImplCall(base)) &&
      m.defaultImplOwner == (if IsJvmInterface(base.container.cls) && !base.flags.jvmDefault then MapDefaultImpls(base.container.cls)
                             else base.container.cls.internalName) &&
      m.isDefaultMethodInInterface == (IsJvmInterface(base.container.cls) && base.flags.jvmDefault)
  {
  }
}
