/** Erased JVM method signatures: the parameters a method takes, in order (the extra constructor
    parameters for outer instances, captured receivers, enum names and ordinals, captured local
    variables and values passed on to the superclass constructor; `this` for DefaultImpls and
    inline-class bodies; the extension receiver; the value parameters), and its return type. */
module Signatures {
  import opened Descriptors
  import opened Writer
  import opened GenericSignature
  import opened Naming
  import opened Dispatch
  import opened Delegation
  import opened Compatibility

  // ------------------------------------------------------------ return types

  /** `g` is reached from `f` through one or more overridden declarations. */
  predicate StrictlyReaches(f: Fun, g: Fun)
  {
    exists o | o in f.overridden :: Reaches(o, g)
  }

  /** The synthetic `box` method of an inline class. */
  predicate IsBoxMethodForInlineClass(f: Fun)
  {
    IsInlineClass(f.container) && f.kind == Synthesized && f.name == "box"
  }

  /** The return value must be boxed: `box` of an inline class, or a primitive return type that
      overrides a declaration, however far up, whose return type is not primitive. */
  ghost predicate BoxedReturnForced(f: Fun)
  {
    IsBoxMethodForInlineClass(f) ||
    (f.returnType.jvmPrimitive && exists g :: StrictlyReaches(f, g) && !g.returnType.jvmPrimitive)
  }

  /** Every declaration `f` overrides, directly or not, listed depth first. */
  function AllOverridden(f: Fun): seq<Fun>
    decreases f, 1, 0
  {
    OverriddenFrom(f, 0)
  }

  function OverriddenFrom(f: Fun, i: nat): seq<Fun>
    requires i <= |f.overridden|
    decreases f, 0, |f.overridden| - i
  {
    if i == |f.overridden| then []
    else [f.overridden[i]] + AllOverridden(f.overridden[i]) + OverriddenFrom(f, i + 1)
  }

  lemma {:induction false} OverriddenFromMembers(f: Fun, i: nat, g: Fun)
    requires i <= |f.overridden|
    ensures g in OverriddenFrom(f, i) <==> exists j | i <= j < |f.overridden| :: Reaches(f.overridden[j], g)
    decreases f, 0, |f.overridden| - i
  {
    if i < |f.overridden| {
      var o := f.overridden[i];
      OverriddenFromMembers(f, i + 1, g);
      AllOverriddenMembers(o, g);
      assert Reaches(o, g) <==> o == g || StrictlyReaches(o, g);
      if Reaches(o, g) {
        assert g in OverriddenFrom(f, i);
      }
      if exists j | i + 1 <= j < |f.overridden| :: Reaches(f.overridden[j], g) {
        assert g in OverriddenFrom(f, i);
      }
    }
  }

  /** The list holds exactly the declarations reached through overridden declarations. */
  lemma {:induction false} AllOverriddenMembers(f: Fun, g: Fun)
    ensures g in AllOverridden(f) <==> StrictlyReaches(f, g)
    decreases f, 1, 0
  {
    OverriddenFromMembers(f, 0, g);
    if StrictlyReaches(f, g) {
      var o :| o in f.overridden && Reaches(o, g);
      var j :| 0 <= j < |f.overridden| && f.overridden[j] == o;
      assert Reaches(f.overridden[j], g);
    }
  }

  /** Checks the overridden declarations one by one for a non-primitive return type. */
  method ForceBoxedReturnType(f: Fun) returns (b: bool)
    ensures b == BoxedReturnForced(f)
  {
    if IsBoxMethodForInlineClass(f) {
      return true;
    }
    if !f.returnType.jvmPrimitive {
      return false;
    }
    var all := AllOverridden(f);
    for i := 0 to |all|
      invariant forall j | 0 <= j < i :: all[j].returnType.jvmPrimitive
    {
      if !all[i].returnType.jvmPrimitive {
        AllOverriddenMembers(f, all[i]);
        return true;
      }
    }
    forall g | StrictlyReaches(f, g)
      ensures g.returnType.jvmPrimitive
    {
      AllOverriddenMembers(f, g);
    }
    return false;
  }

  /** The erased return type: `V` for constructors and functions returning Unit, `Object` for a
      suspend function (through its suspend view), the boxed type where boxing is forced, and
      else the return type's own descriptor. */
  ghost function ReturnTypeDescriptor(f: Fun): string
  {
    if IsConstructor(f) then VoidDescriptor
    else if f.flags.isSuspendNotView then ObjectTypeDescriptor
    else if f.flags.hasVoidReturnType then VoidDescriptor
    else if BoxedReturnForced(f) then f.returnType.boxedDescriptor
    else f.returnType.descriptor
  }

  /** Maps the return type, writing it to `sw` for anything but a constructor. */
  method MapReturnType(f: Fun, sw: SignatureWriter) returns (t: string)
    modifies sw`returnType
    ensures t == ReturnTypeDescriptor(f)
    ensures IsConstructor(f) ==> sw.returnType == old(sw.returnType)
    ensures !IsConstructor(f) ==> sw.returnType == Some(t)
  {
    if IsConstructor(f) {
      return VoidDescriptor;
    }
    if f.flags.isSuspendNotView {
      t := ObjectTypeDescriptor;
      sw.WriteReturnType(t);
      return;
    }
    if f.flags.hasVoidReturnType {
      t := VoidDescriptor;
      sw.WriteReturnType(t);
      return;
    }
    var boxed := ForceBoxedReturnType(f);
    t := if boxed then f.returnType.boxedDescriptor else f.returnType.descriptor;
    sw.WriteReturnType(t);
  }

  /** A primitive return type overriding a non-primitive one, anywhere up the hierarchy, is
      boxed; a primitive return type overriding only primitive ones is not. */
  lemma BoxedReturnForOverride(f: Fun, g: Fun)
    requires !IsConstructor(f) && !f.flags.isSuspendNotView && !f.flags.hasVoidReturnType
    requires f.returnType.jvmPrimitive && g in AllOverridden(f)
    ensures !g.returnType.jvmPrimitive ==> ReturnTypeDescriptor(f) == f.returnType.boxedDescriptor
    ensures !IsBoxMethodForInlineClass(f) && (forall h | h in AllOverridden(f) :: h.returnType.jvmPrimitive) ==>
      ReturnTypeDescriptor(f) == f.returnType.descriptor
  {
    AllOverriddenMembers(f, g);
    if !IsBoxMethodForInlineClass(f) && forall h | h in AllOverridden(f) :: h.returnType.jvmPrimitive {
      forall h | StrictlyReaches(f, h)
        ensures h.returnType.jvmPrimitive
      {
        AllOverriddenMembers(f, h);
      }
    }
  }

  // ------------------------------------------------------------ value parameters

  /** One value parameter per type, boxed when the function forces boxing. */
  function ValueParams(types: seq<KType>, forceBoxing: bool): (r: seq<Param>)
    ensures |r| == |types|
    ensures forall i | 0 <= i < |types| ::
      r[i] == Param(Value, if forceBoxing then types[i].boxedDescriptor else types[i].descriptor)
  {
    if types == [] then []
    else
      var t := types[|types| - 1];
      ValueParams(types[..|types| - 1], forceBoxing) + [Param(Value, if forceBoxing then t.boxedDescriptor else t.descriptor)]
  }

  method WriteValueParameters(sw: SignatureWriter, types: seq<KType>, forceBoxing: bool)
    modifies sw`params
    ensures sw.params == old(sw.params) + ValueParams(types, forceBoxing)
  {
    for i := 0 to |types|
      invariant sw.params == old(sw.params) + ValueParams(types[..i], forceBoxing)
    {
      assert types[..i + 1][..i] == types[..i];
      var t := types[i];
      sw.WriteParameter(Value, if forceBoxing then t.boxedDescriptor else t.descriptor);
    }
    assert types[..|types|] == types;
  }

  // ------------------------------------------------------------ captured variables

  /** A variable a local class captures: a local variable (with the type of its shared box,
      if it is shared, and of its delegate, if it is delegated), a local function, or
      anything else, which takes no constructor parameter. */
  datatype CapturedVariable =
    | CapturedLocal(name: string, sharedVarType: Option<string>, isDelegated: bool, delegateType: KType, t: KType)
    | CapturedLocalFunction(name: string, className: string)
    | CapturedOther(name: string)

  /** The type of the constructor parameter a captured variable is passed in, if any. */
  function CapturedType(v: CapturedVariable): Option<string>
  {
    match v
    case CapturedLocal(_, shared, isDelegated, delegateType, t) =>
      Some(if shared.Some? then shared.value else if isDelegated then delegateType.descriptor else t.descriptor)
    case CapturedLocalFunction(_, className) => Some(ObjectDescriptor(className))
    case CapturedOther(_) => None
  }

  /** What a local class captures from its context, and where each captured variable is
      found among its constructor's parameters once the signature is mapped. */
  class Closure {
    const captured: seq<CapturedVariable>
    const capturedReceiver: Option<KType>
    var capturedOffsets: map<CapturedVariable, nat>

    constructor (captured: seq<CapturedVariable>, capturedReceiver: Option<KType>)
      ensures this.captured == captured && this.capturedReceiver == capturedReceiver && capturedOffsets == map[]
    {
      this.captured := captured;
      this.capturedReceiver := capturedReceiver;
      capturedOffsets := map[];
    }
  }

  /** The parameters of the captured variables, in capture order. */
  function CapturedParams(vs: seq<CapturedVariable>): (r: seq<Param>)
    ensures |r| <= |vs|
    ensures forall p | p in r :: p.kind == CapturedLocalVariable
  {
    if vs == [] then []
    else
      var v := vs[|vs| - 1];
      CapturedParams(vs[..|vs| - 1]) + (if CapturedType(v).Some? then [Param(CapturedLocalVariable, CapturedType(v).value)] else [])
  }

  /** The offsets recorded after `base`: each captured variable with a parameter gets one more
      than the slots taken by all parameters before its own. */
  function CapturedOffsets(base: seq<Param>, vs: seq<CapturedVariable>, offsets: map<CapturedVariable, nat>): map<CapturedVariable, nat>
  {
    if vs == [] then offsets
    else
      var init := vs[..|vs| - 1];
      var v := vs[|vs| - 1];
      var before := CapturedOffsets(base, init, offsets);
      if CapturedType(v).Some? then before[v := TotalSize(base + CapturedParams(init)) + 1] else before
  }

  /** Writes one parameter per captured variable that needs one and records its offset. */
  method WriteCapturedVariables(sw: SignatureWriter, closure: Closure)
    modifies sw`params, closure`capturedOffsets
    ensures sw.params == old(sw.params) + CapturedParams(closure.captured)
    ensures closure.capturedOffsets == CapturedOffsets(old(sw.params), closure.captured, old(closure.capturedOffsets))
  {
    var vs := closure.captured;
    for i := 0 to |vs|
      invariant sw.params == old(sw.params) + CapturedParams(vs[..i])
      invariant closure.capturedOffsets == CapturedOffsets(old(sw.params), vs[..i], old(closure.capturedOffsets))
    {
      assert vs[..i + 1][..i] == vs[..i];
      var v := vs[i];
      var t := CapturedType(v);
      if t.Some? {
        closure.capturedOffsets := closure.capturedOffsets[v := sw.CurrentSignatureSize() + 1];
        sw.WriteParameter(CapturedLocalVariable, t.value);
      }
    }
    assert vs[..|vs|] == vs;
  }

  predicate Distinct(vs: seq<CapturedVariable>)
  {
    forall i, j | 0 <= i < j < |vs| :: vs[i] != vs[j]
  }

  lemma {:induction false} CapturedParamsPrefix(vs: seq<CapturedVariable>, k: nat)
    requires k <= |vs|
    ensures CapturedParams(vs[..k]) <= CapturedParams(vs)
    decreases |vs|
  {
    if k < |vs| {
      var init := vs[..|vs| - 1];
      assert init[..k] == vs[..k];
      CapturedParamsPrefix(init, k);
    } else {
      assert vs[..k] == vs;
    }
  }

  /** A captured variable's recorded offset is the local-variable slot of the parameter it is
      passed in (slot 0 being `this`), and that parameter carries the variable's type. */
  lemma {:induction false} CapturedOffsetIsSlot(base: seq<Param>, vs: seq<CapturedVariable>, offsets: map<CapturedVariable, nat>, k: nat)
    requires Distinct(vs) && k < |vs| && CapturedType(vs[k]).Some?
    ensures var position := |CapturedParams(vs[..k])|;
      var all := CapturedOffsets(base, vs, offsets);
      vs[k] in all && all[vs[k]] == TotalSize(base + CapturedParams(vs[..k])) + 1 &&
      position < |CapturedParams(vs)| &&
      CapturedParams(vs)[position] == Param(CapturedLocalVariable, CapturedType(vs[k]).value)
    decreases |vs|
  {
    var init := vs[..|vs| - 1];
    CapturedParamsPrefix(vs, k + 1);
    assert vs[..k + 1][..k] == vs[..k];
    if k < |vs| - 1 {
      assert init[..k] == vs[..k];
      CapturedOffsetIsSlot(base, init, offsets, k);
    }
  }

  // ------------------------------------------------------------ values passed to the superclass constructor

  /** The superclass constructor's captured values, except enum name and ordinal and, when the
      constructor has an outer instance of its own, the outer instance. */
  function CapturedSuperParams(params: seq<Param>, hasOuter: bool): (r: seq<Param>)
    ensures |r| <= |params|
    ensures forall p | p in r :: p.kind == SuperCallParam
    ensures forall p | p in r ::
      exists q | q in params :: q.descriptor == p.descriptor && q.kind != EnumNameOrOrdinal && !(hasOuter && q.kind == Outer)
  {
    if params == [] then []
    else
      var p := params[|params| - 1];
      var before := CapturedSuperParams(params[..|params| - 1], hasOuter);
      assert forall q | q in params[..|params| - 1] :: q in params;
      if p.kind == EnumNameOrOrdinal || (hasOuter && p.kind == Outer) then before
      else before + [Param(SuperCallParam, p.descriptor)]
  }

  /** The super constructor's parameters for the value arguments that are given explicitly. */
  function ArgumentSuperParams(parameters: seq<Param>, offset: nat, args: seq<ArgumentSlot>): (r: seq<Param>)
    requires forall a | a in args :: offset + a.index < |parameters|
    ensures |r| <= |args|
    ensures forall p | p in r :: p.kind == SuperCallParam
  {
    if args == [] then []
    else
      var a := args[|args| - 1];
      var before := ArgumentSuperParams(parameters, offset, args[..|args| - 1]);
      if a.isDefault then before else before + [Param(SuperCallParam, parameters[offset + a.index].descriptor)]
  }

  /** What a constructor passes on to the superclass constructor it delegates to: the
      superclass's captured values, and for an anonymous object also its explicit arguments. */
  function SuperCallParams(call: DelegationCall, hasOuter: bool, isAnonymous: bool): (r: seq<Param>)
    requires WellFormedCall(call)
    ensures forall p | p in r :: p.kind == SuperCallParam
    ensures |r| <= |call.superParameters|
  {
    var n := |call.superParameters| - |call.arguments|;
    CapturedSuperParams(call.superParameters[..n], hasOuter) +
    (if isAnonymous then ArgumentSuperParams(call.superParameters, n, call.arguments) else [])
  }

  method WriteCapturedSuperParameters(sw: SignatureWriter, parameters: seq<Param>, hasOuter: bool)
    modifies sw`params
    ensures sw.params == old(sw.params) + CapturedSuperParams(parameters, hasOuter)
  {
    for i := 0 to |parameters|
      invariant sw.params == old(sw.params) + CapturedSuperParams(parameters[..i], hasOuter)
    {
      assert parameters[..i + 1][..i] == parameters[..i];
      var parameter := parameters[i];
      if parameter.kind == EnumNameOrOrdinal {
        continue;
      }
      if hasOuter && parameter.kind == Outer {
        continue;
      }
      sw.WriteParameter(SuperCallParam, parameter.descriptor);
    }
    assert parameters[..|parameters|] == parameters;
  }

  method WriteArgumentSuperParameters(sw: SignatureWriter, parameters: seq<Param>, offset: nat, arguments: seq<ArgumentSlot>)
    requires forall a | a in arguments :: offset + a.index < |parameters|
    modifies sw`params
    ensures sw.params == old(sw.params) + ArgumentSuperParams(parameters, offset, arguments)
  {
    for j := 0 to |arguments|
      invariant sw.params == old(sw.params) + ArgumentSuperParams(parameters, offset, arguments[..j])
    {
      assert arguments[..j + 1][..j] == arguments[..j];
      var argument := arguments[j];
      if !argument.isDefault {
        sw.WriteParameter(SuperCallParam, parameters[offset + argument.index].descriptor);
      }
    }
    assert arguments[..|arguments|] == arguments;
  }

  /** Writes what a constructor passes on to the superclass constructor of `call`. */
  method WriteSuperConstructorCallParameters(sw: SignatureWriter, call: DelegationCall, hasOuter: bool, isAnonymous: bool)
    requires WellFormedCall(call)
    modifies sw`params
    ensures sw.params == old(sw.params) + SuperCallParams(call, hasOuter, isAnonymous)
  {
    var parameters := call.superParameters;
    var offset := |parameters| - |call.arguments|;
    WriteCapturedSuperParameters(sw, parameters[..offset], hasOuter);
    if isAnonymous {
      WriteArgumentSuperParameters(sw, parameters, offset, call.arguments);
    }
  }

  // ------------------------------------------------------------ constructors

  /** What the mapper learns about a constructor from the rest of the compiler: the outer
      instance it takes (if any), its identity, the delegating calls of all constructors, and
      whether method bodies are generated. */
  datatype ConstructorContext = ConstructorContext(outer: Option<KType>, self: Ctor, calls: Calls, generateBodies: bool)

  predicate CallsWellFormed(calls: Calls)
  {
    forall k | k in calls :: WellFormedCall(calls[k])
  }

  predicate IsEnumKind(k: ClassKind) { k == EnumClassKind || k == EnumEntryKind }

  /** The outer instance, captured receiver and enum name and ordinal, as they apply. */
  function LeadingConstructorParams(f: Fun, closure: Closure?, outer: Option<KType>): seq<Param>
    requires f.container.InClass?
  {
    var isSynthesized := f.kind == Synthesized;
    (if !isSynthesized && outer.Some? then [Param(Outer, outer.value.descriptor)] else []) +
    (if closure != null && closure.capturedReceiver.Some? then [Param(Receiver, closure.capturedReceiver.value.descriptor)] else []) +
    (if !isSynthesized && IsEnumKind(f.container.cls.kind)
     then [Param(EnumNameOrOrdinal, StringDescriptor), Param(EnumNameOrOrdinal, IntDescriptor)] else [])
  }

  /** The values passed on to the superclass constructor, when bodies are generated and the
      constructor reaches one. */
  function SuperConstructorParams(f: Fun, ctx: ConstructorContext): seq<Param>
    requires f.container.InClass? && CallsWellFormed(ctx.calls)
  {
    if !ctx.generateBodies then []
    else
      var superCall := FirstDelegatingSuperCall(ctx.calls, ctx.self);
      if superCall.None? then []
      else
        SuperCallWellFormed(ctx.calls, ctx.self);
        SuperCallParams(superCall.value, ctx.outer.Some?, f.container.cls.isAnonymous)
  }

  /** All parameters a constructor takes before its value parameters. */
  function AdditionalConstructorParams(f: Fun, closure: Closure?, ctx: ConstructorContext): seq<Param>
    requires f.container.InClass? && CallsWellFormed(ctx.calls)
  {
    LeadingConstructorParams(f, closure, ctx.outer) +
    (if closure == null then [] else CapturedParams(closure.captured) + SuperConstructorParams(f, ctx))
  }

  method WriteLeadingConstructorParameters(f: Fun, sw: SignatureWriter, closure: Closure?, outer: Option<KType>)
    requires f.container.InClass?
    modifies sw`params
    ensures sw.params == old(sw.params) + LeadingConstructorParams(f, closure, outer)
  {
    var isSynthesized := f.kind == Synthesized;
    if !isSynthesized && outer.Some? {
      sw.WriteParameter(Outer, outer.value.descriptor);
    }
    if closure != null && closure.capturedReceiver.Some? {
      sw.WriteParameter(Receiver, closure.capturedReceiver.value.descriptor);
    }
    if !isSynthesized && IsEnumKind(f.container.cls.kind) {
      sw.WriteParameter(EnumNameOrOrdinal, StringDescriptor);
      sw.WriteParameter(EnumNameOrOrdinal, IntDescriptor);
    }
  }

  method WriteSuperConstructorParameters(f: Fun, sw: SignatureWriter, ctx: ConstructorContext)
    requires f.container.InClass? && CallsWellFormed(ctx.calls)
    modifies sw`params
    ensures sw.params == old(sw.params) + SuperConstructorParams(f, ctx)
  {
    if ctx.generateBodies {
      var superCall := FindFirstDelegatingSuperCall(ctx.calls, ctx.self);
      if superCall.Some? {
        SuperCallWellFormed(ctx.calls, ctx.self);
        WriteSuperConstructorCallParameters(sw, superCall.value, ctx.outer.Some?, f.container.cls.isAnonymous);
      }
    }
  }

  method WriteAdditionalConstructorParameters(f: Fun, sw: SignatureWriter, closure: Closure?, ctx: ConstructorContext)
    requires f.container.InClass? && CallsWellFormed(ctx.calls)
    modifies sw`params, closure
    ensures sw.params == old(sw.params) + AdditionalConstructorParams(f, closure, ctx)
    ensures closure != null ==>
      closure.capturedOffsets ==
      CapturedOffsets(old(sw.params) + LeadingConstructorParams(f, closure, ctx.outer), closure.captured, old(closure.capturedOffsets))
  {
    WriteLeadingConstructorParameters(f, sw, closure, ctx.outer);
    if closure != null {
      ghost var leading := sw.params;
      WriteCapturedVariables(sw, closure);
      ghost var captured := sw.params;
      WriteSuperConstructorParameters(f, sw, ctx);
      AppendAssoc(leading, CapturedParams(closure.captured), SuperConstructorParams(f, ctx));
      AppendAssoc(old(sw.params), LeadingConstructorParams(f, closure, ctx.outer),
        CapturedParams(closure.captured) + SuperConstructorParams(f, ctx));
    }
  }

  /** All parameters of a constructor: the additional ones, the value parameters and, for a
      synthetic accessor of a constructor, the marker that tells it apart. */
  function ConstructorParams(f: Fun, valueParameterTypes: seq<KType>, closure: Closure?, ctx: ConstructorContext): seq<Param>
    requires f.container.InClass? && CallsWellFormed(ctx.calls)
  {
    AdditionalConstructorParams(f, closure, ctx) + ValueParams(valueParameterTypes, false) +
    (if f.accessor.CallableAccessor? && f.accessor.forConstructor then [Param(ConstructorMarker, DefaultConstructorMarkerDescriptor)] else [])
  }

  // ------------------------------------------------------------ other members

  /** What the mapper learns about a member from the rest of the compiler: the default type of
      its class, the type parameters and receiver type a DefaultImpls body takes, the accessor
      naming of the JVM ABI and the module being compiled. */
  datatype SignatureContext = SignatureContext(
    ownerType: KType,
    defaultImplsTypeParameters: seq<TypeParameter>,
    defaultImplsReceiver: KType,
    naming: AccessorNaming,
    currentModule: string,
    generateBodies: bool)

  /** The type parameters written for a member in the given owner kind. */
  function MemberTypeParameters(f: Fun, kind: OwnerKind, ctx: SignatureContext): seq<TypeParameter>
  {
    if kind == DefaultImpls then ctx.defaultImplsTypeParameters + f.typeParameters
    else if kind == ErasedInlineClass then []
    else f.typeParameters
  }

  /** The explicit `this` a member takes: the interface for a DefaultImpls body, the inline
      class for an erased inline-class body, the class for an accessor with a dispatch receiver. */
  function ThisIfNeeded(f: Fun, kind: OwnerKind, ctx: SignatureContext): Option<KType>
  {
    if kind == DefaultImpls then Some(ctx.defaultImplsReceiver)
    else if kind == ErasedInlineClass || (IsAccessor(f) && f.flags.hasDispatchReceiver) then Some(ctx.ownerType)
    else None
  }

  /** `this` taken from a container that the source casts to a class. */
  predicate NeedsClassContainer(f: Fun, kind: OwnerKind)
  {
    kind != DefaultImpls && (kind == ErasedInlineClass || (IsAccessor(f) && f.flags.hasDispatchReceiver))
  }

  function MemberParams(f: Fun, kind: OwnerKind, valueParameterTypes: seq<KType>, ctx: SignatureContext): seq<Param>
  {
    ParamsAfterThis(f, ThisIfNeeded(f, kind, ctx), valueParameterTypes)
  }

  /** `this` (if any), the extension receiver (if any) and the value parameters. */
  function ParamsAfterThis(f: Fun, thisIfNeeded: Option<KType>, valueParameterTypes: seq<KType>): seq<Param>
  {
    (if thisIfNeeded.Some? then [Param(This, thisIfNeeded.value.descriptor)] else []) +
    (if f.extensionReceiver.Some? then [Param(Receiver, f.extensionReceiver.value.descriptor)] else []) +
    ValueParams(valueParameterTypes, f.flags.forceSingleValueParameterBoxing)
  }

  /** Where the mapping of a member's signature fails: an upper bound of an unknown kind among
      the generic type parameters it writes, or a `this` taken from a container that is not a
      class. The first failure in the order of the source wins. */
  function MemberSignatureError(f: Fun, kind: OwnerKind, skipGenerics: bool, ctx: SignatureContext): Option<Error>
    requires ParametersWellFormed(MemberTypeParameters(f, kind, ctx))
  {
    if kind != ErasedInlineClass && !skipGenerics && FormalTypeParametersEvents(MemberTypeParameters(f, kind, ctx), ctx.generateBodies).Err? then
      Some(UnknownClassifier)
    else if NeedsClassContainer(f, kind) && !f.container.InClass? then Some(NotAClassMember)
    else None
  }

  /** An erased method signature: name, parameters and return type. */
  datatype MethodSignature = MethodSignature(name: string, parameters: seq<Param>, returnType: string)

  /** The writer skips the generic signature when asked to, and for accessors. */
  predicate SkipsGenerics(f: Fun, skipGenericSignature: bool)
  {
    skipGenericSignature || f.accessor.CallableAccessor?
  }

  predicate SignatureRequires(f: Fun, kind: OwnerKind, ctorCtx: ConstructorContext, ctx: SignatureContext)
  {
    (IsConstructor(f) ==> f.container.InClass? && CallsWellFormed(ctorCtx.calls)) &&
    ParametersWellFormed(MemberTypeParameters(f, kind, ctx))
  }

  /** The signature of `f` mapped for owner kind `kind`. */
  ghost function ExpectedSignature(f: Fun, kind: OwnerKind, valueParameterTypes: seq<KType>, customReturnType: Option<KType>,
                             skipGenericSignature: bool, closure: Closure?, ctorCtx: ConstructorContext, ctx: SignatureContext): Result<MethodSignature>
    requires SignatureRequires(f, kind, ctorCtx, ctx)
  {
    var name := MapFunctionName(f, Some(kind), ctx.naming, ctx.currentModule);
    if IsConstructor(f) then
      Ok(MethodSignature(name, ConstructorParams(f, valueParameterTypes, closure, ctorCtx),
                         if kind == ErasedInlineClass then f.returnType.descriptor else VoidDescriptor))
    else match MemberSignatureError(f, kind, SkipsGenerics(f, skipGenericSignature), ctx)
      case Some(e) => Err(e)
      case None =>
        Ok(MethodSignature(name, MemberParams(f, kind, valueParameterTypes, ctx),
                           if customReturnType.Some? then customReturnType.value.descriptor else ReturnTypeDescriptor(f)))
  }

  method WriteConstructorSignature(f: Fun, sw: SignatureWriter, kind: OwnerKind, valueParameterTypes: seq<KType>, closure: Closure?, ctx: ConstructorContext)
    requires f.container.InClass? && CallsWellFormed(ctx.calls)
    modifies sw`params, sw`returnType, closure
    ensures sw.params == old(sw.params) + ConstructorParams(f, valueParameterTypes, closure, ctx)
    ensures sw.returnType == Some(if kind == ErasedInlineClass then f.returnType.descriptor else VoidDescriptor)
    ensures closure != null ==>
      closure.capturedOffsets ==
      CapturedOffsets(old(sw.params) + LeadingConstructorParams(f, closure, ctx.outer), closure.captured, old(closure.capturedOffsets))
  {
    WriteAdditionalConstructorParameters(f, sw, closure, ctx);
    ghost var additional := AdditionalConstructorParams(f, closure, ctx);
    WriteValueParameters(sw, valueParameterTypes, false);
    AppendAssoc(old(sw.params), additional, ValueParams(valueParameterTypes, false));
    ghost var marker := if f.accessor.CallableAccessor? && f.accessor.forConstructor then [Param(ConstructorMarker, DefaultConstructorMarkerDescriptor)] else [];
    if f.accessor.CallableAccessor? && f.accessor.forConstructor {
      sw.WriteParameter(ConstructorMarker, DefaultConstructorMarkerDescriptor);
    }
    AppendAssoc(old(sw.params), additional + ValueParams(valueParameterTypes, false), marker);
    if kind == ErasedInlineClass {
      sw.WriteReturnType(f.returnType.descriptor);
    } else {
      sw.WriteReturnType(VoidDescriptor);
    }
  }

  method WriteMemberSignature(f: Fun, sw: SignatureWriter, kind: OwnerKind, valueParameterTypes: seq<KType>,
                              customReturnType: Option<KType>, ctx: SignatureContext) returns (r: Result<()>)
    requires !IsConstructor(f) && ParametersWellFormed(MemberTypeParameters(f, kind, ctx))
    modifies sw`events, sw`params, sw`returnType
    ensures r.Err? <==> MemberSignatureError(f, kind, sw.skipGenerics, ctx).Some?
    ensures r.Err? ==> r.error == MemberSignatureError(f, kind, sw.skipGenerics, ctx).value
    ensures r.Ok? ==> sw.params == old(sw.params) + MemberParams(f, kind, valueParameterTypes, ctx)
    ensures r.Ok? ==> sw.returnType == Some(if customReturnType.Some? then customReturnType.value.descriptor else ReturnTypeDescriptor(f))
    ensures sw.skipGenerics ==> sw.events == old(sw.events)
    ensures r.Ok? && !sw.skipGenerics ==>
      FormalTypeParametersEvents(MemberTypeParameters(f, kind, ctx), ctx.generateBodies).Ok? &&
      sw.events == old(sw.events) + FormalTypeParametersEvents(MemberTypeParameters(f, kind, ctx), ctx.generateBodies).value
  {
    var thisIfNeeded: Option<KType> := None;
    if kind == DefaultImpls {
      var written := WriteFormalTypeParameters(sw, ctx.defaultImplsTypeParameters + f.typeParameters, ctx.generateBodies);
      if written.Err? {
        return Err(UnknownClassifier);
      }
      thisIfNeeded := Some(ctx.defaultImplsReceiver);
    } else if kind == ErasedInlineClass {
      if !f.container.InClass? {
        return Err(NotAClassMember);
      }
      thisIfNeeded := Some(ctx.ownerType);
    } else {
      var written := WriteFormalTypeParameters(sw, f.typeParameters, ctx.generateBodies);
      if written.Err? {
        return Err(UnknownClassifier);
      }
      if IsAccessor(f) && f.flags.hasDispatchReceiver {
        if !f.container.InClass? {
          return Err(NotAClassMember);
        }
        thisIfNeeded := Some(ctx.ownerType);
      }
    }
    assert thisIfNeeded == ThisIfNeeded(f, kind, ctx);
    WriteParametersAfterThis(f, sw, thisIfNeeded, valueParameterTypes);
    if customReturnType.Some? {
      sw.WriteReturnType(customReturnType.value.descriptor);
    } else {
      var _ := MapReturnType(f, sw);
    }
    return Ok(());
  }

  method WriteParametersAfterThis(f: Fun, sw: SignatureWriter, thisIfNeeded: Option<KType>, valueParameterTypes: seq<KType>)
    modifies sw`params
    ensures sw.params == old(sw.params) + ParamsAfterThis(f, thisIfNeeded, valueParameterTypes)
  {
    if thisIfNeeded.Some? {
      sw.WriteParameter(This, thisIfNeeded.value.descriptor);
    }
    if f.extensionReceiver.Some? {
      sw.WriteParameter(Receiver, f.extensionReceiver.value.descriptor);
    }
    ghost var leading := (if thisIfNeeded.Some? then [Param(This, thisIfNeeded.value.descriptor)] else []) +
      (if f.extensionReceiver.Some? then [Param(Receiver, f.extensionReceiver.value.descriptor)] else []);
    assert sw.params == old(sw.params) + leading;
    WriteValueParameters(sw, valueParameterTypes, f.flags.forceSingleValueParameterBoxing);
    AppendAssoc(old(sw.params), leading, ValueParams(valueParameterTypes, f.flags.forceSingleValueParameterBoxing));
  }

  /** Maps the signature of `f` for owner kind `kind` with the given value parameter types and
      return type, after reporting an incompatible owner class. */
  method MapSignatureWithCustomParameters(f: Fun, kind: OwnerKind, valueParameterTypes: seq<KType>, customReturnType: Option<KType>,
                                          skipGenericSignature: bool, closure: Closure?, ctorCtx: ConstructorContext,
                                          ctx: SignatureContext, tracker: IncompatibleClassTracker) returns (r: Result<MethodSignature>)
    requires SignatureRequires(f, kind, ctorCtx, ctx)
    modifies tracker, closure
    ensures r == ExpectedSignature(f, kind, valueParameterTypes, customReturnType, skipGenericSignature, closure, ctorCtx, ctx)
    ensures tracker.recorded == old(tracker.recorded) +
      (if f.names.binaryClass.Some? && !f.names.binaryClass.value.compatibleVersion then [f.names.binaryClass.value] else [])
    ensures closure != null && IsConstructor(f) ==>
      closure.capturedOffsets ==
      CapturedOffsets(LeadingConstructorParams(f, closure, ctorCtx.outer), closure.captured, old(closure.capturedOffsets))
    ensures closure != null && !IsConstructor(f) ==> closure.capturedOffsets == old(closure.capturedOffsets)
  {
    CheckOwnerCompatibility(f, tracker);
    if IsConstructor(f) {
      r := MapConstructorSignature(f, kind, valueParameterTypes, customReturnType, skipGenericSignature, closure, ctorCtx, ctx);
    } else {
      r := MapMemberSignature(f, kind, valueParameterTypes, customReturnType, skipGenericSignature, closure, ctorCtx, ctx);
    }
  }

  /** The constructor branch of `MapSignatureWithCustomParameters`. */
  method MapConstructorSignature(f: Fun, kind: OwnerKind, valueParameterTypes: seq<KType>, customReturnType: Option<KType>,
                                 skipGenericSignature: bool, closure: Closure?, ctorCtx: ConstructorContext,
                                 ctx: SignatureContext) returns (r: Result<MethodSignature>)
    requires SignatureRequires(f, kind, ctorCtx, ctx) && IsConstructor(f)
    modifies closure
    ensures r == ExpectedSignature(f, kind, valueParameterTypes, customReturnType, skipGenericSignature, closure, ctorCtx, ctx)
    ensures closure != null ==>
      closure.capturedOffsets ==
      CapturedOffsets(LeadingConstructorParams(f, closure, ctorCtx.outer), closure.captured, old(closure.capturedOffsets))
  {
    var sw := new SignatureWriter(SkipsGenerics(f, skipGenericSignature));
    var name := MapFunctionName(f, Some(kind), ctx.naming, ctx.currentModule);
    WriteConstructorSignature(f, sw, kind, valueParameterTypes, closure, ctorCtx);
    assert [] + LeadingConstructorParams(f, closure, ctorCtx.outer) == LeadingConstructorParams(f, closure, ctorCtx.outer);
    assert sw.params == ConstructorParams(f, valueParameterTypes, closure, ctorCtx);
    return Ok(MethodSignature(name, sw.params, sw.returnType.value));
  }

  /** The branch of `MapSignatureWithCustomParameters` for every other member. */
  method MapMemberSignature(f: Fun, kind: OwnerKind, valueParameterTypes: seq<KType>, customReturnType: Option<KType>,
                            skipGenericSignature: bool, closure: Closure?, ctorCtx: ConstructorContext,
                            ctx: SignatureContext) returns (r: Result<MethodSignature>)
    requires SignatureRequires(f, kind, ctorCtx, ctx) && !IsConstructor(f)
    ensures r == ExpectedSignature(f, kind, valueParameterTypes, customReturnType, skipGenericSignature, closure, ctorCtx, ctx)
  {
    var sw := new SignatureWriter(SkipsGenerics(f, skipGenericSignature));
    var name := MapFunctionName(f, Some(kind), ctx.naming, ctx.currentModule);
    var written := WriteMemberSignature(f, sw, kind, valueParameterTypes, customReturnType, ctx);
    if written.Err? {
      return Err(written.error);
    }
    assert sw.params == MemberParams(f, kind, valueParameterTypes, ctx);
    return Ok(MethodSignature(name, sw.params, sw.returnType.value));
  }

  // ------------------------------------------------------------ parameter order

  /** The position of each parameter kind in a JVM signature. */
  function Rank(k: ParamKind): nat
  {
    match k
    case This => 0
    case Outer => 0
    case Receiver => 1
    case EnumNameOrOrdinal => 2
    case CapturedLocalVariable => 3
    case SuperCallParam => 4
    case Value => 5
    case ConstructorMarker => 6
  }

  /** Every parameter ranks at most as high as any later one. */
  predicate Ordered(ps: seq<Param>)
  {
    forall i, j | 0 <= i < j < |ps| :: Rank(ps[i].kind) <= Rank(ps[j].kind)
  }

  /** Every parameter of `ps` has rank at least `lo` and at most `hi`. */
  predicate Within(ps: seq<Param>, lo: nat, hi: nat)
  {
    forall i | 0 <= i < |ps| :: lo <= Rank(ps[i].kind) <= hi
  }

  /** Two ordered lists, the first ranked below the second, make an ordered list. */
  lemma OrderedConcat(a: seq<Param>, b: seq<Param>, alo: nat, ahi: nat, blo: nat, bhi: nat)
    requires alo <= ahi <= blo <= bhi
    requires Ordered(a) && Ordered(b) && Within(a, alo, ahi) && Within(b, blo, bhi)
    ensures Ordered(a + b) && Within(a + b, alo, bhi)
  {
    forall i, j | 0 <= i < j < |a + b|
      ensures Rank((a + b)[i].kind) <= Rank((a + b)[j].kind)
    {
      if j < |a| {
        assert (a + b)[i] == a[i] && (a + b)[j] == a[j];
      } else if i >= |a| {
        assert (a + b)[i] == b[i - |a|] && (a + b)[j] == b[j - |a|];
      } else {
        assert (a + b)[i] == a[i] && (a + b)[j] == b[j - |a|];
      }
    }
    forall i | 0 <= i < |a + b|
      ensures alo <= Rank((a + b)[i].kind) <= bhi
    {
      if i < |a| {
        assert (a + b)[i] == a[i];
      } else {
        assert (a + b)[i] == b[i - |a|];
      }
    }
  }

  lemma OrderedOfOneRank(ps: seq<Param>, n: nat)
    requires Within(ps, n, n)
    ensures Ordered(ps)
  {
  }

  lemma LeadingOrdered(f: Fun, closure: Closure?, outer: Option<KType>)
    requires f.container.InClass?
    ensures Ordered(LeadingConstructorParams(f, closure, outer)) && Within(LeadingConstructorParams(f, closure, outer), 0, 2)
  {
    var isSynthesized := f.kind == Synthesized;
    var o := if !isSynthesized && outer.Some? then [Param(Outer, outer.value.descriptor)] else [];
    var r := if closure != null && closure.capturedReceiver.Some? then [Param(Receiver, closure.capturedReceiver.value.descriptor)] else [];
    var e := if !isSynthesized && IsEnumKind(f.container.cls.kind)
             then [Param(EnumNameOrOrdinal, StringDescriptor), Param(EnumNameOrOrdinal, IntDescriptor)] else [];
    AtMostOneOrdered(o, 0);
    AtMostOneOrdered(r, 1);
    OrderedOfOneRank(e, 2);
    OrderedConcat(o, r, 0, 0, 1, 1);
    OrderedConcat(o + r, e, 0, 1, 2, 2);
  }

  lemma CapturedAndSuperOrdered(f: Fun, closure: Closure?, ctx: ConstructorContext)
    requires f.container.InClass? && CallsWellFormed(ctx.calls)
    ensures var rest := if closure == null then [] else CapturedParams(closure.captured) + SuperConstructorParams(f, ctx);
      Ordered(rest) && Within(rest, 3, 4)
  {
    if closure != null {
      var captured := CapturedParams(closure.captured);
      var super := SuperConstructorParams(f, ctx);
      OrderedOfOneRank(captured, 3);
      OrderedOfOneRank(super, 4);
      OrderedConcat(captured, super, 3, 3, 4, 4);
    }
  }

  /** The parameters before the value parameters: outer instance, captured receiver, enum name
      and ordinal, captured variables, values for the superclass constructor. */
  lemma AdditionalOrdered(f: Fun, closure: Closure?, ctx: ConstructorContext)
    requires f.container.InClass? && CallsWellFormed(ctx.calls)
    ensures Ordered(AdditionalConstructorParams(f, closure, ctx)) && Within(AdditionalConstructorParams(f, closure, ctx), 0, 4)
  {
    var leading := LeadingConstructorParams(f, closure, ctx.outer);
    var rest := if closure == null then [] else CapturedParams(closure.captured) + SuperConstructorParams(f, ctx);
    LeadingOrdered(f, closure, ctx.outer);
    CapturedAndSuperOrdered(f, closure, ctx);
    OrderedConcat(leading, rest, 0, 2, 3, 4);
  }

  /** A constructor takes its parameters in this order: outer instance, captured receiver, enum
      name and ordinal, captured variables, values for the superclass constructor, value
      parameters, and the accessor marker. */
  lemma ConstructorParamsOrdered(f: Fun, valueParameterTypes: seq<KType>, closure: Closure?, ctx: ConstructorContext)
    requires f.container.InClass? && CallsWellFormed(ctx.calls)
    ensures Ordered(ConstructorParams(f, valueParameterTypes, closure, ctx))
  {
    var marker := if f.accessor.CallableAccessor? && f.accessor.forConstructor then [Param(ConstructorMarker, DefaultConstructorMarkerDescriptor)] else [];
    AdditionalOrdered(f, closure, ctx);
    ValuesOrdered(valueParameterTypes, false);
    OrderedOfOneRank(marker, 6);
    OrderedConcat3(AdditionalConstructorParams(f, closure, ctx), ValueParams(valueParameterTypes, false), marker, 4, 5, 5, 6);
  }

  /** Any other member takes `this` (if needed), then the extension receiver, then the value
      parameters, which are the given types in order. */
  lemma MemberParamsOrdered(f: Fun, kind: OwnerKind, valueParameterTypes: seq<KType>, ctx: SignatureContext)
    ensures Ordered(MemberParams(f, kind, valueParameterTypes, ctx))
    ensures var ps := MemberParams(f, kind, valueParameterTypes, ctx);
      |ps| >= |valueParameterTypes| && ps[|ps| - |valueParameterTypes|..] == ValueParams(valueParameterTypes, f.flags.forceSingleValueParameterBoxing)
  {
    ParamsAfterThisOrdered(f, ThisIfNeeded(f, kind, ctx), valueParameterTypes);
  }

  lemma ParamsAfterThisOrdered(f: Fun, thisIfNeeded: Option<KType>, valueParameterTypes: seq<KType>)
    ensures Ordered(ParamsAfterThis(f, thisIfNeeded, valueParameterTypes))
    ensures var ps := ParamsAfterThis(f, thisIfNeeded, valueParameterTypes);
      |ps| >= |valueParameterTypes| && ps[|ps| - |valueParameterTypes|..] == ValueParams(valueParameterTypes, f.flags.forceSingleValueParameterBoxing)
  {
    var t := if thisIfNeeded.Some? then [Param(This, thisIfNeeded.value.descriptor)] else [];
    var r := if f.extensionReceiver.Some? then [Param(Receiver, f.extensionReceiver.value.descriptor)] else [];
    var values := ValueParams(valueParameterTypes, f.flags.forceSingleValueParameterBoxing);
    AtMostOneOrdered(t, 0);
    AtMostOneOrdered(r, 1);
    ValuesOrdered(valueParameterTypes, f.flags.forceSingleValueParameterBoxing);
    OrderedConcat3(t, r, values, 0, 1, 1, 5);
    SuffixOfConcat(t + r, values);
  }

  lemma AtMostOneOrdered(ps: seq<Param>, n: nat)
    requires |ps| <= 1 && (|ps| == 1 ==> Rank(ps[0].kind) == n)
    ensures Ordered(ps) && Within(ps, n, n)
  {
  }

  lemma ValuesOrdered(types: seq<KType>, forceBoxing: bool)
    ensures Ordered(ValueParams(types, forceBoxing)) && Within(ValueParams(types, forceBoxing), 5, 5)
  {
    OrderedOfOneRank(ValueParams(types, forceBoxing), 5);
  }

  /** Three lists ranked one after the other make an ordered list. */
  lemma OrderedConcat3(a: seq<Param>, b: seq<Param>, c: seq<Param>, ahi: nat, blo: nat, bhi: nat, clo: nat)
    requires ahi <= blo <= bhi <= clo <= 6
    requires Ordered(a) && Ordered(b) && Ordered(c)
    requires Within(a, 0, ahi) && Within(b, blo, bhi) && Within(c, clo, 6)
    ensures Ordered(a + b + c)
  {
    OrderedConcat(a, b, 0, ahi, blo, bhi);
    OrderedConcat(a + b, c, 0, bhi, clo, 6);
  }

  lemma SuffixOfConcat(a: seq<Param>, b: seq<Param>)
    ensures (a + b)[|a + b| - |b|..] == b
  {
    assert (a + b)[|a|..] == b;
  }
}
