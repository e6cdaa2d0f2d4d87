/** Rendering of generic types and formal type parameters into the generic JVM signature.
    Each writing method is specified by an event function; the properties of the rendering are
    lemmas about those functions. */
module GenericSignature {
  import opened Descriptors
  import opened Wildcards
  import opened Writer

  // ------------------------------------------------------------ specification functions

  /** The first segment that has type arguments, or -1. */
  function IndexOfFirstParameterized(segments: seq<Segment>): (k: int)
    ensures -1 <= k < |segments|
    ensures k >= 0 ==> segments[k].arguments != [] && forall j | 0 <= j < k :: segments[j].arguments == []
    ensures k < 0 ==> forall j | 0 <= j < |segments| :: segments[j].arguments == []
  {
    if segments == [] then -1
    else if segments[0].arguments != [] then 0
    else
      var k := IndexOfFirstParameterized(segments[1..]);
      if k < 0 then -1 else k + 1
  }

  /** The type is written raw: it has no arguments, or one of them is `Nothing?`, or `Nothing`
      for a parameter that is not `in`. */
  predicate WrittenRaw(t: KType)
    requires WellFormed(t)
  {
    WellFormedIsAligned(t);
    NothingInNonContravariantPosition(t) || Arguments(t.segments) == []
  }

  /** The events `writeGenericType` produces for `t` on a writer that keeps generics: the bare
      erased type, or a class begin for `t` (plain, or naming the outer class of an inner type)
      closed by the class end. */
  function TypeEvents(t: KType, mode: Mode): (r: seq<Event>)
    requires WellFormed(t)
    ensures r == [AsmType(t.descriptor)] ||
      (|r| >= 2 && r[|r| - 1] == ClassEnd &&
       (r[0] == ClassBegin(t.descriptor) || (r[0].OuterClassBegin? && r[0].descriptor == t.descriptor)))
    decreases t, |t.segments| + 1
  {
    if WrittenRaw(t) then [AsmType(t.descriptor)]
    else
      var k := IndexOfFirstParameterized(t.segments);
      if k < 0 || |t.segments| == 1 then
        [ClassBegin(t.descriptor)] + SegmentEvents(t.segments[|t.segments| - 1], mode) + [ClassEnd]
      else
        [OuterClassBegin(t.descriptor, t.segments[k].classInternalName)]
        + SegmentEvents(t.segments[k], mode)
        + InnerPartsEvents(t, k + 1, |t.segments|, mode)
        + [ClassEnd]
  }

  /** The events for the inner segments `from..to` of `t`, each as `.Inner<args>`. */
  function InnerPartsEvents(t: KType, from: nat, to: nat, mode: Mode): seq<Event>
    requires WellFormed(t) && 1 <= from && to <= |t.segments|
    decreases t, to - from
  {
    if to <= from then []
    else
      InnerPartsEvents(t, from, to - 1, mode)
      + [InnerClass(t.segments[to - 1].shortName)] + SegmentEvents(t.segments[to - 1], mode)
  }

  /** The arguments of one segment; function classes that the JVM erases to a single-parameter
      class keep only their last argument. */
  function SegmentEvents(s: Segment, mode: Mode): seq<Event>
    requires SegmentWellFormed(s)
    decreases s, |s.arguments| + 1
  {
    if KeepsOnlyLastArgument(s) then
      ArgumentEvents(s, [s.parameters[|s.parameters| - 1]], [s.arguments[|s.arguments| - 1]], mode)
    else ArgumentEvents(s, s.parameters, s.arguments, mode)
  }

  /** The arguments `args` of segment `s` paired with `params` as far as both go. */
  function ArgumentEvents(s: Segment, params: seq<Variance>, args: seq<Projection>, mode: Mode): seq<Event>
    requires SegmentWellFormed(s)
    requires |args| <= |s.arguments| && forall a | a in args :: a in s.arguments
    decreases s, |args|
  {
    var n := if |params| < |args| then |params| else |args|;
    if n == 0 then []
    else ArgumentEvents(s, params[..n - 1], args[..n - 1], mode) + OneArgumentEvents(s, params[n - 1], args[n - 1], mode)
  }

  /** One argument: an unbounded wildcard for `*` and for `Nothing` at an `in` parameter,
      otherwise the wildcard, the argument type mapped in its nested mode, and the end mark. */
  function OneArgumentEvents(s: Segment, parameter: Variance, a: Projection, mode: Mode): seq<Event>
    requires SegmentWellFormed(s) && a in s.arguments
    decreases s, 0
  {
    if a.star || (a.t.special == Nothing && parameter == In) then [UnboundedWildcard]
    else
      [TypeArgument(VarianceForWildcard(parameter, a, mode))]
      + MapTypeEvents(a.t, ArgumentMode(mode, EffectiveVariance(parameter, a.kind)))
      + [TypeArgumentEnd]
  }

  /** The only argument of an array type. */
  function ArrayElement(t: KType): (a: Projection)
    requires WellFormed(t) && t.classifier.ArrayClassifier?
    ensures a in t.segments[0].arguments && WellFormed(a.t)
  {
    assert t.segments[0] in t.segments;
    assert SegmentWellFormed(t.segments[0]);
    assert t.segments[0].arguments[0] in t.segments[0].arguments;
    t.segments[0].arguments[0]
  }

  /** The projection kind of an array element; a star projects `out`. */
  function ElementKind(a: Projection): Variance
  {
    if a.star then Out else a.kind
  }

  /** The events `mapType` produces for `t` on a writer that keeps generics: a type parameter is
      a type variable with its erased descriptor; an array is an array of its element, which is
      `java/lang/Object` when the element is projected `in` (a class written with `writeClass`
      reads as its bare descriptor) and the element mapped in its nested mode otherwise; a class
      type is rendered by `writeGenericType`. */
  function MapTypeEvents(t: KType, mode: Mode): seq<Event>
    requires WellFormed(t)
    decreases t, |t.segments| + 2
  {
    match t.classifier
    case TypeParameterClassifier(name) => [TypeVariable(name, t.descriptor)]
    case ArrayClassifier =>
      var element := ArrayElement(t);
      var kind := ElementKind(element);
      [ArrayType]
      + (if kind == In then [AsmType(ObjectTypeDescriptor)] else MapTypeEvents(element.t, ArgumentMode(mode, kind)))
      + [ArrayEnd]
    case ClassClassifier => TypeEvents(t, mode)
  }

  // ------------------------------------------------------------ the writing methods

  /** Writes the generic form of `t`, or just its erased type when generics are skipped or
      the type is written raw. */
  method WriteGenericType(sw: SignatureWriter, t: KType, mode: Mode)
    requires WellFormed(t)
    modifies sw`events
    ensures sw.events == old(sw.events) + (if sw.skipGenerics then [AsmType(t.descriptor)] else TypeEvents(t, mode))
    decreases t, |t.segments| + 1
  {
    WellFormedIsAligned(t);
    var nothing := HasNothingInNonContravariantPosition(t);
    if sw.skipGenerics || nothing || Arguments(t.segments) == [] {
      sw.Write(AsmType(t.descriptor));
      return;
    }
    assert !WrittenRaw(t);
    ghost var start := sw.events;
    ghost var body: seq<Event>;
    var k := IndexOfFirstParameterized(t.segments);
    if k < 0 || |t.segments| == 1 {
      sw.Write(ClassBegin(t.descriptor));
      WriteSegmentArguments(sw, t.segments[|t.segments| - 1], mode);
      body := [ClassBegin(t.descriptor)] + SegmentEvents(t.segments[|t.segments| - 1], mode);
      AppendAssoc(start, [ClassBegin(t.descriptor)], SegmentEvents(t.segments[|t.segments| - 1], mode));
    } else {
      sw.Write(OuterClassBegin(t.descriptor, t.segments[k].classInternalName));
      WriteSegmentArguments(sw, t.segments[k], mode);
      ghost var first := [OuterClassBegin(t.descriptor, t.segments[k].classInternalName)] + SegmentEvents(t.segments[k], mode);
      AppendAssoc(start, [OuterClassBegin(t.descriptor, t.segments[k].classInternalName)], SegmentEvents(t.segments[k], mode));
      WriteInnerParts(sw, t, k + 1, mode);
      body := first + InnerPartsEvents(t, k + 1, |t.segments|, mode);
      AppendAssoc(start, first, InnerPartsEvents(t, k + 1, |t.segments|, mode));
    }
    assert sw.events == start + body;
    sw.Write(ClassEnd);
    AppendAssoc(start, body, [ClassEnd]);
    assert TypeEvents(t, mode) == body + [ClassEnd];
  }

  method WriteInnerParts(sw: SignatureWriter, t: KType, from: nat, mode: Mode)
    requires WellFormed(t) && 1 <= from <= |t.segments| && !sw.skipGenerics
    modifies sw`events
    ensures sw.events == old(sw.events) + InnerPartsEvents(t, from, |t.segments|, mode)
    decreases t, |t.segments| - from
  {
    var i := from;
    while i < |t.segments|
      invariant from <= i <= |t.segments|
      invariant sw.events == old(sw.events) + InnerPartsEvents(t, from, i, mode)
    {
      ghost var before := sw.events;
      ghost var part := [InnerClass(t.segments[i].shortName)] + SegmentEvents(t.segments[i], mode);
      sw.Write(InnerClass(t.segments[i].shortName));
      WriteSegmentArguments(sw, t.segments[i], mode);
      AppendAssoc(before, [InnerClass(t.segments[i].shortName)], SegmentEvents(t.segments[i], mode));
      AppendAssoc(old(sw.events), InnerPartsEvents(t, from, i, mode), part);
      i := i + 1;
    }
  }

  method WriteSegmentArguments(sw: SignatureWriter, s: Segment, mode: Mode)
    requires SegmentWellFormed(s) && !sw.skipGenerics
    modifies sw`events
    ensures sw.events == old(sw.events) + SegmentEvents(s, mode)
    decreases s, |s.arguments| + 1
  {
    if KeepsOnlyLastArgument(s) {
      WriteArguments(sw, s, [s.parameters[|s.parameters| - 1]], [s.arguments[|s.arguments| - 1]], mode);
    } else {
      WriteArguments(sw, s, s.parameters, s.arguments, mode);
    }
  }

  method WriteArguments(sw: SignatureWriter, s: Segment, params: seq<Variance>, args: seq<Projection>, mode: Mode)
    requires SegmentWellFormed(s) && !sw.skipGenerics
    requires |args| <= |s.arguments| && forall a | a in args :: a in s.arguments
    modifies sw`events
    ensures sw.events == old(sw.events) + ArgumentEvents(s, params, args, mode)
    decreases s, |args|
  {
    var n := if |params| < |args| then |params| else |args|;
    var i := 0;
    while i < n
      invariant 0 <= i <= n
      invariant sw.events == old(sw.events) + ArgumentEvents(s, params[..i], args[..i], mode)
    {
      WriteArgument(sw, s, params[i], args[i], mode);
      ArgumentEventsSplit(s, params, args, i, mode);
      AppendAssoc(old(sw.events), ArgumentEvents(s, params[..i], args[..i], mode), OneArgumentEvents(s, params[i], args[i], mode));
      i := i + 1;
    }
    ArgumentEventsPrefix(s, params, args, mode);
  }

  method WriteArgument(sw: SignatureWriter, s: Segment, parameter: Variance, argument: Projection, mode: Mode)
    requires SegmentWellFormed(s) && !sw.skipGenerics && argument in s.arguments
    modifies sw`events
    ensures sw.events == old(sw.events) + OneArgumentEvents(s, parameter, argument, mode)
    decreases s, 0
  {
    if argument.star || (argument.t.special == Nothing && parameter == In) {
      sw.Write(UnboundedWildcard);
    } else {
      var nested := ArgumentMode(mode, EffectiveVariance(parameter, argument.kind));
      ghost var open := [TypeArgument(VarianceForWildcard(parameter, argument, mode))];
      sw.Write(TypeArgument(VarianceForWildcard(parameter, argument, mode)));
      WriteMappedType(sw, argument.t, nested);
      AppendAssoc(old(sw.events), open, MapTypeEvents(argument.t, nested));
      sw.Write(TypeArgumentEnd);
      AppendAssoc(old(sw.events), open + MapTypeEvents(argument.t, nested), [TypeArgumentEnd]);
    }
  }

  /** Writes `t` as `mapType` does: a type variable, an array around its element, or the
      generic form of a class type. */
  method WriteMappedType(sw: SignatureWriter, t: KType, mode: Mode)
    requires WellFormed(t) && !sw.skipGenerics
    modifies sw`events
    ensures sw.events == old(sw.events) + MapTypeEvents(t, mode)
    decreases t, |t.segments| + 2
  {
    match t.classifier {
      case TypeParameterClassifier(name) =>
        sw.Write(TypeVariable(name, t.descriptor));
      case ArrayClassifier =>
        var element := ArrayElement(t);
        var kind := ElementKind(element);
        ghost var inner := if kind == In then [AsmType(ObjectTypeDescriptor)] else MapTypeEvents(element.t, ArgumentMode(mode, kind));
        sw.Write(ArrayType);
        if kind == In {
          sw.Write(AsmType(ObjectTypeDescriptor));
        } else {
          WriteMappedType(sw, element.t, ArgumentMode(mode, kind));
        }
        AppendAssoc(old(sw.events), [ArrayType], inner);
        sw.Write(ArrayEnd);
        AppendAssoc(old(sw.events), [ArrayType] + inner, [ArrayEnd]);
      case ClassClassifier =>
        WriteGenericType(sw, t, mode);
    }
  }

  /** The argument pairs are written one after the other. */
  lemma {:induction false} ArgumentEventsSplit(s: Segment, params: seq<Variance>, args: seq<Projection>, i: nat, mode: Mode)
    requires SegmentWellFormed(s)
    requires |args| <= |s.arguments| && forall a | a in args :: a in s.arguments
    requires i < |params| && i < |args|
    ensures ArgumentEvents(s, params[..i + 1], args[..i + 1], mode) ==
      ArgumentEvents(s, params[..i], args[..i], mode) + OneArgumentEvents(s, params[i], args[i], mode)
  {
    assert params[..i + 1][..i] == params[..i] && args[..i + 1][..i] == args[..i];
  }

  /** Pairing stops at the shorter list. */
  lemma {:induction false} ArgumentEventsPrefix(s: Segment, params: seq<Variance>, args: seq<Projection>, mode: Mode)
    requires SegmentWellFormed(s)
    requires |args| <= |s.arguments| && forall a | a in args :: a in s.arguments
    ensures var n := if |params| < |args| then |params| else |args|;
      ArgumentEvents(s, params[..n], args[..n], mode) == ArgumentEvents(s, params, args, mode)
  {
    var n := if |params| < |args| then |params| else |args|;
    if n > 0 {
      assert params[..n][..n - 1] == params[..n - 1] && args[..n][..n - 1] == args[..n - 1];
    }
  }

  // ------------------------------------------------------------ properties of the rendering

  /** Events that belong to a type, as opposed to the formal type parameter list. */
  predicate TypeLevel(e: Event)
  {
    !(e.FormalTypeParameter? || e.ClassBound? || e.ClassBoundEnd? || e.InterfaceBound? || e.InterfaceBoundEnd?)
  }

  predicate WellShaped(es: seq<Event>)
  {
    Balanced(es) && forall e | e in es :: TypeLevel(e)
  }

  lemma WellShapedConcat(a: seq<Event>, b: seq<Event>)
    requires WellShaped(a) && WellShaped(b)
    ensures WellShaped(a + b)
  {
    BalancedConcat(a, b);
  }

  lemma WellShapedWrap(open: Event, inner: seq<Event>, close: Event)
    requires Opening(open).Some? && Closing(close) == Opening(open) && TypeLevel(open) && TypeLevel(close)
    requires WellShaped(inner)
    ensures WellShaped([open] + inner + [close])
  {
    BalancedWrap(open, inner, close);
  }

  /** Every begin the rendering writes is closed by its own end, in nesting order, and a type
      never writes bound marks. */
  lemma {:induction false} TypeEventsWellShaped(t: KType, mode: Mode)
    requires WellFormed(t)
    ensures WellShaped(TypeEvents(t, mode))
    decreases t, |t.segments| + 1
  {
    if WrittenRaw(t) {
      BalancedSingle(AsmType(t.descriptor));
    } else {
      var k := IndexOfFirstParameterized(t.segments);
      if k < 0 || |t.segments| == 1 {
        SegmentEventsWellShaped(t.segments[|t.segments| - 1], mode);
        WellShapedWrap(ClassBegin(t.descriptor), SegmentEvents(t.segments[|t.segments| - 1], mode), ClassEnd);
      } else {
        var head := SegmentEvents(t.segments[k], mode);
        var inner := InnerPartsEvents(t, k + 1, |t.segments|, mode);
        SegmentEventsWellShaped(t.segments[k], mode);
        InnerPartsWellShaped(t, k + 1, |t.segments|, mode);
        WellShapedConcat(head, inner);
        WellShapedWrap(OuterClassBegin(t.descriptor, t.segments[k].classInternalName), head + inner, ClassEnd);
        assert [OuterClassBegin(t.descriptor, t.segments[k].classInternalName)] + head + inner + [ClassEnd]
            == [OuterClassBegin(t.descriptor, t.segments[k].classInternalName)] + (head + inner) + [ClassEnd];
      }
    }
  }

  lemma {:induction false} InnerPartsWellShaped(t: KType, from: nat, to: nat, mode: Mode)
    requires WellFormed(t) && 1 <= from && to <= |t.segments|
    ensures WellShaped(InnerPartsEvents(t, from, to, mode))
    decreases t, to - from
  {
    if to > from {
      InnerPartsWellShaped(t, from, to - 1, mode);
      BalancedSingle(InnerClass(t.segments[to - 1].shortName));
      SegmentEventsWellShaped(t.segments[to - 1], mode);
      var a := InnerPartsEvents(t, from, to - 1, mode);
      var b := [InnerClass(t.segments[to - 1].shortName)];
      var c := SegmentEvents(t.segments[to - 1], mode);
      WellShapedConcat(a, b);
      WellShapedConcat(a + b, c);
    }
  }

  lemma {:induction false} SegmentEventsWellShaped(s: Segment, mode: Mode)
    requires SegmentWellFormed(s)
    ensures WellShaped(SegmentEvents(s, mode))
    decreases s, |s.arguments| + 1
  {
    if KeepsOnlyLastArgument(s) {
      ArgumentEventsWellShaped(s, [s.parameters[|s.parameters| - 1]], [s.arguments[|s.arguments| - 1]], mode);
    } else {
      ArgumentEventsWellShaped(s, s.parameters, s.arguments, mode);
    }
  }

  lemma {:induction false} ArgumentEventsWellShaped(s: Segment, params: seq<Variance>, args: seq<Projection>, mode: Mode)
    requires SegmentWellFormed(s)
    requires |args| <= |s.arguments| && forall a | a in args :: a in s.arguments
    ensures WellShaped(ArgumentEvents(s, params, args, mode))
    decreases s, |args|
  {
    var n := if |params| < |args| then |params| else |args|;
    if n > 0 {
      ArgumentEventsWellShaped(s, params[..n - 1], args[..n - 1], mode);
      OneArgumentWellShaped(s, params[n - 1], args[n - 1], mode);
      WellShapedConcat(ArgumentEvents(s, params[..n - 1], args[..n - 1], mode), OneArgumentEvents(s, params[n - 1], args[n - 1], mode));
    }
  }

  lemma {:induction false} OneArgumentWellShaped(s: Segment, parameter: Variance, a: Projection, mode: Mode)
    requires SegmentWellFormed(s) && a in s.arguments
    ensures WellShaped(OneArgumentEvents(s, parameter, a, mode))
    decreases s, 0
  {
    if a.star || (a.t.special == Nothing && parameter == In) {
      BalancedSingle(UnboundedWildcard);
    } else {
      var nested := ArgumentMode(mode, EffectiveVariance(parameter, a.kind));
      MapTypeEventsWellShaped(a.t, nested);
      WellShapedWrap(TypeArgument(VarianceForWildcard(parameter, a, mode)), MapTypeEvents(a.t, nested), TypeArgumentEnd);
    }
  }

  /** Type variables and arrays keep the rendering balanced: an array closes its own bracket
      around its element. */
  lemma {:induction false} MapTypeEventsWellShaped(t: KType, mode: Mode)
    requires WellFormed(t)
    ensures WellShaped(MapTypeEvents(t, mode))
    decreases t, |t.segments| + 2
  {
    match t.classifier
    case TypeParameterClassifier(name) =>
      BalancedSingle(TypeVariable(name, t.descriptor));
    case ArrayClassifier =>
      var element := ArrayElement(t);
      var kind := ElementKind(element);
      if kind == In {
        BalancedSingle(AsmType(ObjectTypeDescriptor));
        WellShapedWrap(ArrayType, [AsmType(ObjectTypeDescriptor)], ArrayEnd);
      } else {
        MapTypeEventsWellShaped(element.t, ArgumentMode(mode, kind));
        WellShapedWrap(ArrayType, MapTypeEvents(element.t, ArgumentMode(mode, kind)), ArrayEnd);
      }
    case ClassClassifier =>
      TypeEventsWellShaped(t, mode);
  }

  /** A type is written as its bare erased type exactly when it is written raw; otherwise its
      generic form is bracketed by a class begin and a class end. */
  lemma RawTypeExactly(t: KType, mode: Mode)
    requires WellFormed(t)
    ensures TypeEvents(t, mode) == [AsmType(t.descriptor)] <==> WrittenRaw(t)
    ensures !WrittenRaw(t) ==>
      var es := TypeEvents(t, mode);
      |es| >= 2 && (es[0].ClassBegin? || es[0].OuterClassBegin?) && es[|es| - 1] == ClassEnd
  {
  }

  /** `g` occurs in `es` at position `k`. */
  predicate GroupAt(es: seq<Event>, g: seq<Event>, k: int)
  {
    0 <= k && k + |g| <= |es| && es[k..k + |g|] == g
  }

  /** The events of the first `m` pairs begin the events of all pairs. */
  lemma {:induction false} ArgumentEventsGrow(s: Segment, params: seq<Variance>, args: seq<Projection>, m: nat, mode: Mode)
    requires SegmentWellFormed(s)
    requires |args| <= |s.arguments| && forall a | a in args :: a in s.arguments
    requires m <= |params| && m <= |args|
    ensures forall a | a in args[..m] :: a in s.arguments
    ensures ArgumentEvents(s, params[..m], args[..m], mode) <= ArgumentEvents(s, params, args, mode)
    decreases |args| - m
  {
    assert forall a | a in args[..m] :: a in args;
    if m < |params| && m < |args| {
      ArgumentEventsSplit(s, params, args, m, mode);
      ArgumentEventsGrow(s, params, args, m + 1, mode);
    } else {
      ArgumentEventsPrefix(s, params, args, mode);
    }
  }

  /** In a one-segment type written with its arguments, argument `j` is written in place: after
      the class begin and the events of the arguments before it. */
  lemma {:induction false} ArgumentInPlace(t: KType, mode: Mode, j: nat)
    requires WellFormed(t) && |t.segments| == 1 && !WrittenRaw(t) && !KeepsOnlyLastArgument(t.segments[0])
    requires j < |t.segments[0].arguments|
    ensures SegmentWellFormed(t.segments[0])
    ensures var s := t.segments[0];
      var es := TypeEvents(t, mode);
      es[0] == ClassBegin(t.descriptor) &&
      GroupAt(es, OneArgumentEvents(s, s.parameters[j], s.arguments[j], mode),
              1 + |ArgumentEvents(s, s.parameters[..j], s.arguments[..j], mode)|)
  {
    var s := t.segments[0];
    SingleSegmentEvents(t, mode);
    ArgumentEventsGrow(s, s.parameters, s.arguments, j + 1, mode);
    ArgumentEventsSplit(s, s.parameters, s.arguments, j, mode);
    GroupInside(ClassBegin(t.descriptor), ArgumentEvents(s, s.parameters, s.arguments, mode), ClassEnd,
                ArgumentEvents(s, s.parameters[..j], s.arguments[..j], mode),
                OneArgumentEvents(s, s.parameters[j], s.arguments[j], mode));
  }

  /** A one-segment type written with its arguments: the class begin, the events of its
      arguments and the class end. */
  lemma SingleSegmentEvents(t: KType, mode: Mode)
    requires WellFormed(t) && |t.segments| == 1 && !WrittenRaw(t) && !KeepsOnlyLastArgument(t.segments[0])
    ensures SegmentWellFormed(t.segments[0])
    ensures TypeEvents(t, mode) ==
      [ClassBegin(t.descriptor)] + ArgumentEvents(t.segments[0], t.segments[0].parameters, t.segments[0].arguments, mode) + [ClassEnd]
  {
    assert t.segments[0] in t.segments;
  }

  /** A group that follows `before` in `all` follows the opening event and `before` once `all` is
      bracketed. */
  lemma GroupInside(open: Event, all: seq<Event>, close: Event, before: seq<Event>, one: seq<Event>)
    requires before + one <= all
    ensures GroupAt([open] + all + [close], one, 1 + |before|)
  {
    var es := [open] + all + [close];
    assert es[1..1 + |all|] == all;
    assert all[|before|..|before| + |one|] == one;
    assert es[1 + |before|..1 + |before| + |one|] == all[|before|..|before| + |one|];
  }

  /** A raw type under `Nothing` drops only its own argument list: an argument whose type is
      written raw (`List<Nothing>` in `Map<Foo, List<Nothing>>`) is written as its bare erased
      type, in its place among the arguments of a type that keeps its own list. */
  lemma NothingErasesOnlyItsOwnList(t: KType, mode: Mode, j: nat)
    requires WellFormed(t) && |t.segments| == 1 && !WrittenRaw(t) && !KeepsOnlyLastArgument(t.segments[0])
    requires j < |t.segments[0].arguments| && j < |t.segments[0].parameters|
    requires var a := t.segments[0].arguments[j];
      !a.star && a.t.special == Plain && a.t.classifier.ClassClassifier? && WellFormed(a.t) && WrittenRaw(a.t)
    ensures var s := t.segments[0];
      var a := s.arguments[j];
      var es := TypeEvents(t, mode);
      es[0] == ClassBegin(t.descriptor) &&
      GroupAt(es, [TypeArgument(VarianceForWildcard(s.parameters[j], a, mode)), AsmType(a.t.descriptor), TypeArgumentEnd],
              1 + |ArgumentEvents(s, s.parameters[..j], s.arguments[..j], mode)|)
  {
    ArgumentInPlace(t, mode, j);
    var s := t.segments[0];
    var a := s.arguments[j];
    var nested := ArgumentMode(mode, EffectiveVariance(s.parameters[j], a.kind));
    assert MapTypeEvents(a.t, nested) == TypeEvents(a.t, nested) == [AsmType(a.t.descriptor)];
  }

  /** A type-parameter argument is written as a type variable with its own name, not as its
      erased bound: `List<T>` is written `List<TT;>`. */
  lemma TypeVariableArgument(t: KType, mode: Mode, j: nat)
    requires WellFormed(t) && |t.segments| == 1 && !WrittenRaw(t) && !KeepsOnlyLastArgument(t.segments[0])
    requires j < |t.segments[0].arguments| && j < |t.segments[0].parameters|
    requires var a := t.segments[0].arguments[j];
      !a.star && a.t.special == Plain && a.t.classifier.TypeParameterClassifier?
    ensures var s := t.segments[0];
      var a := s.arguments[j];
      GroupAt(TypeEvents(t, mode),
              [TypeArgument(VarianceForWildcard(s.parameters[j], a, mode)),
               TypeVariable(a.t.classifier.parameterName, a.t.descriptor), TypeArgumentEnd],
              1 + |ArgumentEvents(s, s.parameters[..j], s.arguments[..j], mode)|)
  {
    ArgumentInPlace(t, mode, j);
    var s := t.segments[0];
    var a := s.arguments[j];
    var nested := ArgumentMode(mode, EffectiveVariance(s.parameters[j], a.kind));
    assert MapTypeEvents(a.t, nested) == [TypeVariable(a.t.classifier.parameterName, a.t.descriptor)];
  }

  /** An array is written between an array begin and its end, and an element projected `in` is
      written as `java/lang/Object` whatever its type. */
  lemma ArrayShape(t: KType, mode: Mode)
    requires WellFormed(t) && t.classifier.ArrayClassifier?
    ensures var es := MapTypeEvents(t, mode);
      |es| >= 3 && es[0] == ArrayType && es[|es| - 1] == ArrayEnd && WellShaped(es[1..|es| - 1])
    ensures ElementKind(ArrayElement(t)) == In ==> MapTypeEvents(t, mode) == [ArrayType, AsmType(ObjectTypeDescriptor), ArrayEnd]
  {
    var element := ArrayElement(t);
    var kind := ElementKind(element);
    var es := MapTypeEvents(t, mode);
    if kind == In {
      BalancedSingle(AsmType(ObjectTypeDescriptor));
    } else {
      var inner := MapTypeEvents(element.t, ArgumentMode(mode, kind));
      MapTypeEventsWellShaped(element.t, ArgumentMode(mode, kind));
      RawOrClassIsNonEmpty(element.t, ArgumentMode(mode, kind));
      assert es[1..|es| - 1] == inner;
    }
  }

  /** The mapping of a type never writes nothing. */
  lemma {:induction false} RawOrClassIsNonEmpty(t: KType, mode: Mode)
    requires WellFormed(t)
    ensures |MapTypeEvents(t, mode)| >= 1
    decreases t, |t.segments| + 2
  {
    match t.classifier
    case TypeParameterClassifier(_) =>
    case ArrayClassifier =>
    case ClassClassifier =>
      RawTypeExactly(t, mode);
  }

  /** A star, or `Nothing` for an `in` parameter, is written as `?` and nothing else; every
      other argument is written as a wildcard mark, its type and an end mark. */
  lemma UnboundedWildcardExactly(s: Segment, parameter: Variance, a: Projection, mode: Mode)
    requires SegmentWellFormed(s) && a in s.arguments
    ensures OneArgumentEvents(s, parameter, a, mode) == [UnboundedWildcard] <==>
      (a.star || (a.t.special == Nothing && parameter == In))
    ensures !(a.star || (a.t.special == Nothing && parameter == In)) ==>
      var es := OneArgumentEvents(s, parameter, a, mode);
      es[0] == TypeArgument(VarianceForWildcard(parameter, a, mode)) && es[|es| - 1] == TypeArgumentEnd
  {
  }

  /** `KFunctionN`, `KSuspendFunctionN` and function classes of big arity are written with
      their last argument (the return type) alone. */
  lemma {:induction false} FunctionClassKeepsLastArgument(s: Segment, mode: Mode)
    requires SegmentWellFormed(s) && KeepsOnlyLastArgument(s)
    ensures SegmentEvents(s, mode) ==
      OneArgumentEvents(s, s.parameters[|s.parameters| - 1], s.arguments[|s.arguments| - 1], mode)
  {
    var p, a := [s.parameters[|s.parameters| - 1]], [s.arguments[|s.arguments| - 1]];
    assert p[..0] == [] && a[..0] == [];
    assert ArgumentEvents(s, p[..0], a[..0], mode) == [];
  }

  // ------------------------------------------------------------ formal type parameters

  predicate BoundsWellFormed(bounds: seq<Bound>)
  {
    forall b | b in bounds :: !b.OtherBound? ==>
      WellFormed(b.t) && (b.TypeParameterBound? <==> b.t.classifier.TypeParameterClassifier?)
  }

  /** The first bound that is a class but not an interface on the JVM. */
  function FirstClassBound(bounds: seq<Bound>): (r: Option<KType>)
    ensures r.Some? <==> exists b | b in bounds :: b.ClassBound? && !b.isJvmInterface
    ensures r.Some? ==> Bound.ClassBound(r.value, false) in bounds
  {
    if bounds == [] then None
    else if bounds[0].ClassBound? && !bounds[0].isJvmInterface then Some(bounds[0].t)
    else FirstClassBound(bounds[1..])
  }

  /** Bounds written as interface bounds: JVM interfaces and type parameters. */
  predicate IsInterfaceBound(b: Bound)
  {
    (b.ClassBound? && b.isJvmInterface) || b.TypeParameterBound?
  }

  /** The interface bounds of `bounds`, in order; an unknown classifier fails. */
  function InterfaceBoundsEvents(bounds: seq<Bound>): Result<seq<Event>>
    requires BoundsWellFormed(bounds)
  {
    if bounds == [] then Ok([])
    else
      var rest := InterfaceBoundsEvents(bounds[..|bounds| - 1]);
      var b := bounds[|bounds| - 1];
      if rest.Err? then rest
      else if b.OtherBound? then Err(UnknownClassifier)
      else if IsInterfaceBound(b) then Ok(rest.value + InterfaceBoundGroup(b.t))
      else rest
  }

  /** One interface bound: the mark, the bound type and the end mark. */
  function InterfaceBoundGroup(t: KType): seq<Event>
    requires WellFormed(t)
  {
    [InterfaceBound] + MapTypeEvents(t, GenericArgumentMode) + [InterfaceBoundEnd]
  }

  /** The events `writeFormalTypeParameter` produces: nothing for a nameless parameter when
      bodies are not generated; otherwise the name, one class bound holding the first
      non-interface class bound if any, then every interface bound. */
  function FormalTypeParameterEvents(tp: TypeParameter, generateBodies: bool): (r: Result<seq<Event>>)
    requires BoundsWellFormed(tp.upperBounds)
    ensures r.Err? <==> (generateBodies || !tp.isSpecialName) && exists b | b in tp.upperBounds :: b.OtherBound?
    ensures r.Ok? && (generateBodies || !tp.isSpecialName) ==> r.value != [] && r.value[0] == FormalTypeParameter(tp.name)
  {
    if !generateBodies && tp.isSpecialName then Ok([])
    else
      var classBound := FirstClassBound(tp.upperBounds);
      var head := [FormalTypeParameter(tp.name), Event.ClassBound]
        + (if classBound.Some? then MapTypeEvents(classBound.value, GenericArgumentMode) else [])
        + [ClassBoundEnd];
      var interfaces := InterfaceBoundsEvents(tp.upperBounds);
      InterfaceBoundsFailExactly(tp.upperBounds);
      if interfaces.Err? then interfaces else Ok(head + interfaces.value)
  }

  /** The interface bounds fail exactly when some bound is neither a class nor a type parameter. */
  lemma {:induction false} InterfaceBoundsFailExactly(bounds: seq<Bound>)
    requires BoundsWellFormed(bounds)
    ensures InterfaceBoundsEvents(bounds).Err? <==> exists b | b in bounds :: b.OtherBound?
    decreases |bounds|
  {
    if bounds != [] {
      var init := bounds[..|bounds| - 1];
      assert forall x | x in init :: x in bounds;
      InterfaceBoundsFailExactly(init);
      assert forall x | x in bounds :: x in init || x == bounds[|bounds| - 1];
    }
  }

  predicate ParametersWellFormed(tps: seq<TypeParameter>)
  {
    forall tp | tp in tps :: BoundsWellFormed(tp.upperBounds)
  }

  function FormalTypeParametersEvents(tps: seq<TypeParameter>, generateBodies: bool): Result<seq<Event>>
    requires ParametersWellFormed(tps)
  {
    if tps == [] then Ok([])
    else
      var rest := FormalTypeParametersEvents(tps[..|tps| - 1], generateBodies);
      var last := FormalTypeParameterEvents(tps[|tps| - 1], generateBodies);
      if rest.Err? then rest
      else if last.Err? then last
      else Ok(rest.value + last.value)
  }

  method WriteFormalTypeParameter(sw: SignatureWriter, tp: TypeParameter, generateBodies: bool) returns (r: Result<()>)
    requires BoundsWellFormed(tp.upperBounds) && !sw.skipGenerics
    modifies sw`events
    ensures r.Ok? <==> FormalTypeParameterEvents(tp, generateBodies).Ok?
    ensures r.Ok? ==> sw.events == old(sw.events) + FormalTypeParameterEvents(tp, generateBodies).value
  {
    if !generateBodies && tp.isSpecialName {
      return Ok(());
    }
    ghost var start := sw.events;
    ghost var classBound := FirstClassBound(tp.upperBounds);
    ghost var body := if classBound.Some? then MapTypeEvents(classBound.value, GenericArgumentMode) else [];
    sw.Write(FormalTypeParameter(tp.name));
    sw.Write(Event.ClassBound);
    assert sw.events == start + [FormalTypeParameter(tp.name), Event.ClassBound];
    WriteClassBound(sw, tp.upperBounds);
    AppendAssoc(start, [FormalTypeParameter(tp.name), Event.ClassBound], body);
    sw.Write(ClassBoundEnd);
    ghost var head := [FormalTypeParameter(tp.name), Event.ClassBound] + body + [ClassBoundEnd];
    AppendAssoc(start, [FormalTypeParameter(tp.name), Event.ClassBound] + body, [ClassBoundEnd]);
    assert sw.events == start + head;
    r := WriteInterfaceBounds(sw, tp.upperBounds);
    if r.Ok? {
      AppendAssoc(start, head, InterfaceBoundsEvents(tp.upperBounds).value);
    }
  }

  /** Writes the first bound that is a class and not an interface on the JVM, if any. */
  method WriteClassBound(sw: SignatureWriter, bounds: seq<Bound>)
    requires BoundsWellFormed(bounds) && !sw.skipGenerics
    modifies sw`events
    ensures var classBound := FirstClassBound(bounds);
      sw.events == old(sw.events) + (if classBound.Some? then MapTypeEvents(classBound.value, GenericArgumentMode) else [])
  {
    var i := 0;
    while i < |bounds|
      invariant 0 <= i <= |bounds|
      invariant FirstClassBound(bounds) == FirstClassBound(bounds[i..])
      invariant sw.events == old(sw.events)
    {
      assert bounds[i..][1..] == bounds[i + 1..];
      if bounds[i].ClassBound? && !bounds[i].isJvmInterface {
        WriteMappedType(sw, bounds[i].t, GenericArgumentMode);
        return;
      }
      i := i + 1;
    }
  }

  /** Writes every interface and type-parameter bound; fails at the first unknown classifier. */
  method WriteInterfaceBounds(sw: SignatureWriter, bounds: seq<Bound>) returns (r: Result<()>)
    requires BoundsWellFormed(bounds) && !sw.skipGenerics
    modifies sw`events
    ensures r.Ok? <==> InterfaceBoundsEvents(bounds).Ok?
    ensures r.Ok? ==> sw.events == old(sw.events) + InterfaceBoundsEvents(bounds).value
  {
    var i := 0;
    while i < |bounds|
      invariant 0 <= i <= |bounds|
      invariant BoundsWellFormed(bounds[..i])
      invariant InterfaceBoundsEvents(bounds[..i]).Ok?
      invariant sw.events == old(sw.events) + InterfaceBoundsEvents(bounds[..i]).value
    {
      InterfaceBoundsStep(bounds, i);
      var b := bounds[i];
      if b.OtherBound? {
        InterfaceBoundsFailFrom(bounds, i + 1);
        return Err(UnknownClassifier);
      }
      if IsInterfaceBound(b) {
        WriteInterfaceBound(sw, b.t);
        AppendAssoc(old(sw.events), InterfaceBoundsEvents(bounds[..i]).value, InterfaceBoundGroup(b.t));
      }
      i := i + 1;
    }
    assert bounds[..i] == bounds;
    return Ok(());
  }

  method WriteInterfaceBound(sw: SignatureWriter, t: KType)
    requires WellFormed(t) && !sw.skipGenerics
    modifies sw`events
    ensures sw.events == old(sw.events) + InterfaceBoundGroup(t)
  {
    ghost var inner := MapTypeEvents(t, GenericArgumentMode);
    sw.Write(InterfaceBound);
    WriteMappedType(sw, t, GenericArgumentMode);
    AppendAssoc(old(sw.events), [InterfaceBound], inner);
    sw.Write(InterfaceBoundEnd);
    AppendAssoc(old(sw.events), [InterfaceBound] + inner, [InterfaceBoundEnd]);
  }

  /** The events of the first `i + 1` bounds, from those of the first `i`. */
  lemma InterfaceBoundsStep(bounds: seq<Bound>, i: nat)
    requires BoundsWellFormed(bounds) && i < |bounds|
    ensures BoundsWellFormed(bounds[..i]) && BoundsWellFormed(bounds[..i + 1])
    ensures !bounds[i].OtherBound? ==> WellFormed(bounds[i].t)
    ensures var rest := InterfaceBoundsEvents(bounds[..i]);
      var b := bounds[i];
      InterfaceBoundsEvents(bounds[..i + 1]) ==
        if rest.Err? then rest
        else if b.OtherBound? then Err(UnknownClassifier)
        else if IsInterfaceBound(b) then Ok(rest.value + InterfaceBoundGroup(b.t))
        else rest
  {
    assert bounds[..i + 1][..i] == bounds[..i];
    assert bounds[i] in bounds;
  }

  /** A failure among the first bounds is a failure of the whole list. */
  lemma {:induction false} InterfaceBoundsFailFrom(bounds: seq<Bound>, i: nat)
    requires BoundsWellFormed(bounds) && i <= |bounds|
    requires InterfaceBoundsEvents(bounds[..i]).Err?
    ensures InterfaceBoundsEvents(bounds).Err?
    decreases |bounds| - i
  {
    if i < |bounds| {
      assert bounds[..i + 1][..i] == bounds[..i];
      InterfaceBoundsFailFrom(bounds, i + 1);
    } else {
      assert bounds[..i] == bounds;
    }
  }

  method WriteFormalTypeParameters(sw: SignatureWriter, tps: seq<TypeParameter>, generateBodies: bool) returns (r: Result<()>)
    requires ParametersWellFormed(tps)
    modifies sw`events
    ensures sw.skipGenerics ==> r.Ok? && sw.events == old(sw.events)
    ensures !sw.skipGenerics ==> (r.Ok? <==> FormalTypeParametersEvents(tps, generateBodies).Ok?)
    ensures !sw.skipGenerics && r.Ok? ==> sw.events == old(sw.events) + FormalTypeParametersEvents(tps, generateBodies).value
  {
    if sw.skipGenerics {
      return Ok(());
    }
    var i := 0;
    while i < |tps|
      invariant 0 <= i <= |tps|
      invariant ParametersWellFormed(tps[..i])
      invariant FormalTypeParametersEvents(tps[..i], generateBodies).Ok?
      invariant sw.events == old(sw.events) + FormalTypeParametersEvents(tps[..i], generateBodies).value
    {
      ghost var before := sw.events;
      FormalParametersStep(tps, i, generateBodies);
      var one := WriteFormalTypeParameter(sw, tps[i], generateBodies);
      if one.Err? {
        FormalParametersFailFrom(tps, i + 1, generateBodies);
        return one;
      }
      AppendAssoc(old(sw.events), FormalTypeParametersEvents(tps[..i], generateBodies).value,
        FormalTypeParameterEvents(tps[i], generateBodies).value);
      i := i + 1;
    }
    assert tps[..i] == tps;
    return Ok(());
  }

  /** The events of the first `i + 1` parameters, from those of the first `i`. */
  lemma FormalParametersStep(tps: seq<TypeParameter>, i: nat, generateBodies: bool)
    requires ParametersWellFormed(tps) && i < |tps|
    ensures ParametersWellFormed(tps[..i]) && ParametersWellFormed(tps[..i + 1])
    ensures BoundsWellFormed(tps[i].upperBounds)
    ensures var rest := FormalTypeParametersEvents(tps[..i], generateBodies);
      var last := FormalTypeParameterEvents(tps[i], generateBodies);
      FormalTypeParametersEvents(tps[..i + 1], generateBodies) ==
        if rest.Err? then rest else if last.Err? then last else Ok(rest.value + last.value)
  {
    assert tps[..i + 1][..i] == tps[..i];
    assert tps[i] in tps;
  }

  lemma {:induction false} FormalParametersFailFrom(tps: seq<TypeParameter>, i: nat, generateBodies: bool)
    requires ParametersWellFormed(tps) && i <= |tps|
    requires FormalTypeParametersEvents(tps[..i], generateBodies).Err?
    ensures FormalTypeParametersEvents(tps, generateBodies).Err?
    decreases |tps| - i
  {
    if i < |tps| {
      assert tps[..i + 1][..i] == tps[..i];
      FormalParametersFailFrom(tps, i + 1, generateBodies);
    } else {
      assert tps[..i] == tps;
    }
  }

  /** Every interface or type-parameter bound is written as its own group among the interface
      bounds. */
  lemma {:induction false} InterfaceBoundWritten(bounds: seq<Bound>, i: nat)
    requires BoundsWellFormed(bounds) && InterfaceBoundsEvents(bounds).Ok?
    requires i < |bounds| && IsInterfaceBound(bounds[i])
    ensures WellFormed(bounds[i].t)
    ensures exists k :: GroupAt(InterfaceBoundsEvents(bounds).value, InterfaceBoundGroup(bounds[i].t), k)
    decreases |bounds|
  {
    assert bounds[i] in bounds;
    var init := bounds[..|bounds| - 1];
    assert forall x | x in init :: x in bounds;
    var rest := InterfaceBoundsEvents(init);
    var es := InterfaceBoundsEvents(bounds).value;
    if i == |bounds| - 1 {
      assert es == rest.value + InterfaceBoundGroup(bounds[i].t);
      assert GroupAt(es, InterfaceBoundGroup(bounds[i].t), |rest.value|);
    } else {
      assert init[i] == bounds[i];
      InterfaceBoundWritten(init, i);
      var k :| GroupAt(rest.value, InterfaceBoundGroup(bounds[i].t), k);
      assert rest.value <= es;
      assert GroupAt(es, InterfaceBoundGroup(bounds[i].t), k);
    }
  }

  /** A bound that is another type parameter keeps that parameter's name: `<T : U>` writes `U`
      as a type variable among the interface bounds of `T`. */
  lemma TypeParameterBoundKeepsName(tp: TypeParameter, generateBodies: bool, i: nat)
    requires BoundsWellFormed(tp.upperBounds) && FormalTypeParameterEvents(tp, generateBodies).Ok?
    requires generateBodies || !tp.isSpecialName
    requires i < |tp.upperBounds| && tp.upperBounds[i].TypeParameterBound?
    ensures var u := tp.upperBounds[i].t;
      u.classifier.TypeParameterClassifier? &&
      exists k :: GroupAt(FormalTypeParameterEvents(tp, generateBodies).value,
                          [InterfaceBound, TypeVariable(u.classifier.parameterName, u.descriptor), InterfaceBoundEnd], k)
  {
    var u := tp.upperBounds[i].t;
    assert tp.upperBounds[i] in tp.upperBounds;
    InterfaceBoundWritten(tp.upperBounds, i);
    var rest := InterfaceBoundsEvents(tp.upperBounds).value;
    var k :| GroupAt(rest, InterfaceBoundGroup(u), k);
    var es := FormalTypeParameterEvents(tp, generateBodies).value;
    var head := es[..|es| - |rest|];
    assert es == head + rest;
    assert InterfaceBoundGroup(u) == [InterfaceBound, TypeVariable(u.classifier.parameterName, u.descriptor), InterfaceBoundEnd];
    assert GroupAt(es, InterfaceBoundGroup(u), |head| + k);
  }

  // ------------------------------------------------------------ properties of formal parameters

  function Count(es: seq<Event>, e: Event): nat
  {
    if es == [] then 0 else Count(es[..|es| - 1], e) + (if es[|es| - 1] == e then 1 else 0)
  }

  lemma {:induction false} CountConcat(a: seq<Event>, b: seq<Event>, e: Event)
    ensures Count(a + b, e) == Count(a, e) + Count(b, e)
    decreases |b|
  {
    if b == [] {
      assert a + b == a;
    } else {
      assert (a + b)[..|a + b| - 1] == a + b[..|b| - 1];
      CountConcat(a, b[..|b| - 1], e);
    }
  }

  lemma {:induction false} CountAbsent(es: seq<Event>, e: Event)
    requires e !in es
    ensures Count(es, e) == 0
    decreases |es|
  {
    if es != [] {
      assert forall x | x in es[..|es| - 1] :: x in es;
      CountAbsent(es[..|es| - 1], e);
    }
  }

  function CountInterfaceBounds(bounds: seq<Bound>): nat
  {
    if bounds == [] then 0
    else CountInterfaceBounds(bounds[..|bounds| - 1]) + (if IsInterfaceBound(bounds[|bounds| - 1]) then 1 else 0)
  }

  /** What a bracketed group contributes to the count of a bound mark that types never write. */
  lemma GroupCount(open: Event, inner: seq<Event>, close: Event, e: Event)
    requires WellShaped(inner) && !TypeLevel(e)
    ensures Count([open] + inner + [close], e) == (if open == e then 1 else 0) + (if close == e then 1 else 0)
  {
    CountAbsent(inner, e);
    CountConcat([open], inner, e);
    CountConcat([open] + inner, [close], e);
    assert [open][..0] == [] && ([open] + inner + [close])[..|inner| + 1] == [open] + inner;
  }

  /** One interface bound mark per interface or type-parameter bound, and no class bound mark. */
  lemma {:induction false} InterfaceBoundsCounted(bounds: seq<Bound>)
    requires BoundsWellFormed(bounds) && InterfaceBoundsEvents(bounds).Ok?
    ensures Balanced(InterfaceBoundsEvents(bounds).value)
    ensures Count(InterfaceBoundsEvents(bounds).value, InterfaceBound) == CountInterfaceBounds(bounds)
    ensures Count(InterfaceBoundsEvents(bounds).value, Event.ClassBound) == 0
  {
    if bounds != [] {
      var init := bounds[..|bounds| - 1];
      var b := bounds[|bounds| - 1];
      assert forall x | x in init :: x in bounds;
      InterfaceBoundsCounted(init);
      if IsInterfaceBound(b) {
        var es := InterfaceBoundsEvents(init).value;
        var group := InterfaceBoundGroup(b.t);
        assert InterfaceBoundsEvents(bounds).value == es + group;
        InterfaceBoundGroupShape(b.t);
        CountConcat(es, group, InterfaceBound);
        CountConcat(es, group, Event.ClassBound);
        BalancedConcat(es, group);
      }
    }
  }

  /** One interface bound is balanced and holds one interface bound mark and no class bound mark. */
  lemma InterfaceBoundGroupShape(t: KType)
    requires WellFormed(t)
    ensures var group := InterfaceBoundGroup(t);
      Balanced(group) && Count(group, InterfaceBound) == 1 && Count(group, Event.ClassBound) == 0
  {
    var inner := MapTypeEvents(t, GenericArgumentMode);
    MapTypeEventsWellShaped(t, GenericArgumentMode);
    GroupCount(InterfaceBound, inner, InterfaceBoundEnd, InterfaceBound);
    GroupCount(InterfaceBound, inner, InterfaceBoundEnd, Event.ClassBound);
    BalancedWrap(InterfaceBound, inner, InterfaceBoundEnd);
  }

  /** A formal type parameter that is written opens exactly one class bound, writes an
      interface bound for each interface and type-parameter bound, and is well bracketed. */
  lemma FormalTypeParameterShape(tp: TypeParameter, generateBodies: bool)
    requires BoundsWellFormed(tp.upperBounds)
    requires FormalTypeParameterEvents(tp, generateBodies).Ok?
    requires generateBodies || !tp.isSpecialName
    ensures var es := FormalTypeParameterEvents(tp, generateBodies).value;
      Balanced(es) &&
      Count(es, Event.ClassBound) == 1 &&
      Count(es, InterfaceBound) == CountInterfaceBounds(tp.upperBounds)
  {
    var classBound := FirstClassBound(tp.upperBounds);
    var body := if classBound.Some? then MapTypeEvents(classBound.value, GenericArgumentMode) else [];
    if classBound.Some? {
      assert Bound.ClassBound(classBound.value, false) in tp.upperBounds;
      MapTypeEventsWellShaped(classBound.value, GenericArgumentMode);
    }
    var head := [FormalTypeParameter(tp.name), Event.ClassBound] + body + [ClassBoundEnd];
    HeadShape(tp.name, body);
    var rest := InterfaceBoundsEvents(tp.upperBounds).value;
    InterfaceBoundsCounted(tp.upperBounds);
    BalancedConcat(head, rest);
    CountConcat(head, rest, Event.ClassBound);
    CountConcat(head, rest, InterfaceBound);
  }

  /** The name and class bound of a formal type parameter: balanced, one class bound mark and
      no interface bound mark. */
  lemma HeadShape(name: string, body: seq<Event>)
    requires WellShaped(body)
    ensures var head := [FormalTypeParameter(name), Event.ClassBound] + body + [ClassBoundEnd];
      Balanced(head) && Count(head, Event.ClassBound) == 1 && Count(head, InterfaceBound) == 0
  {
    var bound := [Event.ClassBound] + body + [ClassBoundEnd];
    GroupCount(Event.ClassBound, body, ClassBoundEnd, Event.ClassBound);
    GroupCount(Event.ClassBound, body, ClassBoundEnd, InterfaceBound);
    BalancedWrap(Event.ClassBound, body, ClassBoundEnd);
    BalancedSingle(FormalTypeParameter(name));
    BalancedConcat([FormalTypeParameter(name)], bound);
    HeadCount(name, bound, Event.ClassBound);
    HeadCount(name, bound, InterfaceBound);
    assert [FormalTypeParameter(name), Event.ClassBound] == [FormalTypeParameter(name)] + [Event.ClassBound];
    AppendAssoc([FormalTypeParameter(name)], [Event.ClassBound], body);
    AppendAssoc([FormalTypeParameter(name)], [Event.ClassBound] + body, [ClassBoundEnd]);
  }

  lemma HeadCount(name: string, bound: seq<Event>, e: Event)
    requires !e.FormalTypeParameter?
    ensures Count([FormalTypeParameter(name)] + bound, e) == Count(bound, e)
  {
    CountConcat([FormalTypeParameter(name)], bound, e);
    assert [FormalTypeParameter(name)][..0] == [];
  }
}
