/** The signature writer the type mapper drives. It is a collaborator of the mapper, modelled
    here only as far as the mapper observes it: the generic-signature calls made on it, in
    order, the erased parameters written so far and the erased return type. */
module Writer {
  import opened Descriptors

  /** One call on the generic-signature side of the writer. */
  datatype Event =
    | AsmType(descriptor: string)
    | ClassBegin(descriptor: string)
    | OuterClassBegin(descriptor: string, outerInternalName: string)
    | InnerClass(shortName: string)
    | TypeArgument(variance: Variance)
    | TypeArgumentEnd
    | UnboundedWildcard
    | ClassEnd
    | FormalTypeParameter(name: string)
    | ClassBound
    | ClassBoundEnd
    | InterfaceBound
    | InterfaceBoundEnd
    | TypeVariable(name: string, descriptor: string)
    | ArrayType
    | ArrayEnd

  class SignatureWriter {
    /** A plain writer skips the generic signature; a "both" writer keeps it. */
    const skipGenerics: bool
    var events: seq<Event>
    var params: seq<Param>
    var returnType: Option<string>

    constructor (skipGenerics: bool)
      ensures this.skipGenerics == skipGenerics
      ensures events == [] && params == [] && returnType == None
    {
      this.skipGenerics := skipGenerics;
      events, params, returnType := [], [], None;
    }

    /** The JVM slots taken by the parameters written so far. */
    function CurrentSignatureSize(): nat
      reads this
    {
      TotalSize(params)
    }

    method Write(e: Event)
      modifies this`events
      ensures events == old(events) + [e]
    {
      events := events + [e];
    }

    method WriteParameter(kind: ParamKind, descriptor: string)
      modifies this`params
      ensures params == old(params) + [Param(kind, descriptor)]
    {
      params := params + [Param(kind, descriptor)];
    }

    method WriteReturnType(descriptor: string)
      modifies this`returnType
      ensures returnType == Some(descriptor)
    {
      returnType := Some(descriptor);
    }
  }

  /** Appending in two steps appends the concatenation. */
  lemma AppendAssoc<T>(a: seq<T>, b: seq<T>, c: seq<T>)
    ensures a + b + c == a + (b + c)
  {
  }

  // ------------------------------------------------------------ bracket structure of events

  datatype Bracket = ClassBracket | ArgumentBracket | ClassBoundBracket | InterfaceBoundBracket | ArrayBracket

  function Opening(e: Event): Option<Bracket>
  {
    match e
    case ClassBegin(_) => Some(ClassBracket)
    case OuterClassBegin(_, _) => Some(ClassBracket)
    case TypeArgument(_) => Some(ArgumentBracket)
    case ClassBound => Some(ClassBoundBracket)
    case InterfaceBound => Some(InterfaceBoundBracket)
    case ArrayType => Some(ArrayBracket)
    case _ => None
  }

  function Closing(e: Event): Option<Bracket>
  {
    match e
    case ClassEnd => Some(ClassBracket)
    case TypeArgumentEnd => Some(ArgumentBracket)
    case ClassBoundEnd => Some(ClassBoundBracket)
    case InterfaceBoundEnd => Some(InterfaceBoundBracket)
    case ArrayEnd => Some(ArrayBracket)
    case _ => None
  }

  /** Runs the events against a stack of open brackets; None when a close does not match. */
  function Run(es: seq<Event>, stack: seq<Bracket>): Option<seq<Bracket>>
    decreases |es|
  {
    if es == [] then Some(stack)
    else if Opening(es[0]).Some? then Run(es[1..], stack + [Opening(es[0]).value])
    else if Closing(es[0]).Some? then
      if stack != [] && stack[|stack| - 1] == Closing(es[0]).value then Run(es[1..], stack[..|stack| - 1])
      else None
    else Run(es[1..], stack)
  }

  /** Every begin call is closed by the matching end call, in nesting order. */
  predicate Balanced(es: seq<Event>)
  {
    Run(es, []) == Some([])
  }

  lemma {:induction false} RunAppend(a: seq<Event>, b: seq<Event>, stack: seq<Bracket>)
    ensures Run(a + b, stack) == (if Run(a, stack).None? then None else Run(b, Run(a, stack).value))
    decreases |a|
  {
    if a == [] {
      assert a + b == b;
    } else {
      assert (a + b)[0] == a[0];
      assert (a + b)[1..] == a[1..] + b;
      var e := a[0];
      if Opening(e).Some? {
        RunAppend(a[1..], b, stack + [Opening(e).value]);
      } else if Closing(e).Some? {
        if stack != [] && stack[|stack| - 1] == Closing(e).value {
          RunAppend(a[1..], b, stack[..|stack| - 1]);
        }
      } else {
        RunAppend(a[1..], b, stack);
      }
    }
  }

  /** A run does not look below the part of the stack it started with. */
  lemma {:induction false} RunOnDeeperStack(a: seq<Event>, base: seq<Bracket>, stack: seq<Bracket>, final: seq<Bracket>)
    requires Run(a, stack) == Some(final)
    ensures Run(a, base + stack) == Some(base + final)
    decreases |a|
  {
    if a != [] {
      var e := a[0];
      if Opening(e).Some? {
        assert base + stack + [Opening(e).value] == base + (stack + [Opening(e).value]);
        RunOnDeeperStack(a[1..], base, stack + [Opening(e).value], final);
      } else if Closing(e).Some? {
        assert stack != [] && stack[|stack| - 1] == Closing(e).value;
        assert (base + stack)[..|base + stack| - 1] == base + stack[..|stack| - 1];
        RunOnDeeperStack(a[1..], base, stack[..|stack| - 1], final);
      } else {
        RunOnDeeperStack(a[1..], base, stack, final);
      }
    }
  }

  lemma BalancedConcat(a: seq<Event>, b: seq<Event>)
    requires Balanced(a) && Balanced(b)
    ensures Balanced(a + b)
  {
    RunAppend(a, b, []);
  }

  lemma BalancedWrap(open: Event, inner: seq<Event>, close: Event)
    requires Opening(open).Some? && Closing(close) == Opening(open)
    requires Balanced(inner)
    ensures Balanced([open] + inner + [close])
  {
    var b := Opening(open).value;
    assert [open][1..] == [] && [] + [b] == [b];
    assert Run([open], []) == Run([], [b]);
    RunOnDeeperStack(inner, [b], [], []);
    assert [b] + [] == [b];
    RunAppend([open], inner, []);
    assert [close][1..] == [] && [b][..0] == [];
    assert Run([close], [b]) == Run([], []);
    RunAppend([open] + inner, [close], []);
  }

  lemma BalancedSingle(e: Event)
    requires Opening(e).None? && Closing(e).None?
    ensures Balanced([e])
  {
  }
}
