/** The `$default` variant of a method with default arguments: its name and its descriptor,
    obtained by inserting the bit masks, the marker and possibly the owner into the
    descriptor of the original method (JVM method descriptors, section 4.3.3 of the Java
    Virtual Machine Specification). */
module Defaults {
  import opened Descriptors

  /** A JVM method: name and descriptor. */
  datatype Method = Method(name: string, descriptor: string)

  /** Every occurrence of `c` in `s` replaced by `replacement`. */
  function ReplaceAll(s: string, c: char, replacement: string): (r: string)
    ensures c !in s ==> r == s
  {
    if s == [] then []
    else (if s[0] == c then replacement else [s[0]]) + ReplaceAll(s[1..], c, replacement)
  }

  lemma {:induction false} ReplaceAllConcat(a: string, b: string, c: char, replacement: string)
    ensures ReplaceAll(a + b, c, replacement) == ReplaceAll(a, c, replacement) + ReplaceAll(b, c, replacement)
    decreases |a|
  {
    if a == [] {
      assert a + b == b;
    } else {
      assert (a + b)[0] == a[0] && (a + b)[1..] == a[1..] + b;
      ReplaceAllConcat(a[1..], b, c, replacement);
    }
  }

  function Repeat(s: string, n: nat): (r: string)
    ensures |r| == n * |s|
  {
    if n == 0 then [] else s + Repeat(s, n - 1)
  }

  /** Bits of the default-argument masks: one 32-bit int per 32 value parameters. */
  const IntegerSize := 32

  /** The number of mask ints for `n` value parameters. */
  function MaskCount(n: nat): nat
  {
    (n + IntegerSize - 1) / IntegerSize
  }

  /** The masks have exactly enough bits for the parameters: ⌈n / 32⌉ ints. */
  lemma MaskCountIsCeiling(n: nat)
    ensures MaskCount(n) * 32 >= n
    ensures MaskCount(n) == 0 || (MaskCount(n) - 1) * 32 < n
    ensures n > 0 ==> MaskCount(n) > 0
  {
  }

  /** The marker appended after the masks. */
  function MarkerDescriptor(isConstructor: bool, isInlineClassConstructor: bool): string
  {
    if isConstructor || isInlineClassConstructor then DefaultConstructorMarkerDescriptor else ObjectTypeDescriptor
  }

  /** The descriptor of the `$default` method: the mask ints and the marker before `)`, and,
      for a method with a dispatch receiver that is not a constructor, the receiver after `(`. */
  function DefaultDescriptor(m: Method, dispatchReceiverDescriptor: Option<string>, valueParameterCount: nat, isInlineClassConstructor: bool): string
  {
    var isConstructor := m.name == ConstructorName;
    var additionalArgs := Repeat(IntDescriptor, MaskCount(valueParameterCount)) + MarkerDescriptor(isConstructor, isInlineClassConstructor);
    var result := ReplaceAll(m.descriptor, ')', additionalArgs + ")");
    if dispatchReceiverDescriptor.Some? && !isConstructor then ReplaceAll(result, '(', "(" + dispatchReceiverDescriptor.value)
    else result
  }

  /** The `$default` variant of `m`; `isStatic` tells whether the method is static for its
      owner kind, `ownerDescriptor` is the descriptor of its owner class. */
  function MapDefaultMethod(m: Method, ownerDescriptor: string, isStatic: bool, valueParameterCount: nat, isInlineClassConstructor: bool): (r: Method)
    ensures r.name == ConstructorName <==> m.name == ConstructorName
  {
    var isConstructor := m.name == ConstructorName;
    var descriptor := DefaultDescriptor(m, if isStatic || isConstructor then None else Some(ownerDescriptor), valueParameterCount, isInlineClassConstructor);
    Method(if isConstructor then ConstructorName else m.name + DefaultParamsImplSuffix, descriptor)
  }

  /** A method descriptor `(params)return` whose parts hold no parentheses. */
  predicate MethodDescriptor(d: string, params: string, ret: string)
  {
    d == "(" + params + ")" + ret && '(' !in params && ')' !in params && '(' !in ret && ')' !in ret
  }

  lemma {:induction false} RepeatNoParens(n: nat)
    ensures '(' !in Repeat(IntDescriptor, n) && ')' !in Repeat(IntDescriptor, n)
  {
    var r := Repeat(IntDescriptor, n);
    if n > 0 {
      RepeatNoParens(n - 1);
      assert r == "I" + Repeat(IntDescriptor, n - 1);
    }
  }

  lemma MarkerHasNoParens(isConstructor: bool, isInlineClassConstructor: bool)
    ensures '(' !in MarkerDescriptor(isConstructor, isInlineClassConstructor)
    ensures ')' !in MarkerDescriptor(isConstructor, isInlineClassConstructor)
  {
    if isConstructor || isInlineClassConstructor {
      NoParensInDefaultConstructorMarker();
    } else {
      NoParensInObject();
    }
  }

  lemma NoParensInDefaultConstructorMarker()
    ensures '(' !in DefaultConstructorMarkerDescriptor && ')' !in DefaultConstructorMarkerDescriptor
  {
    NoParensInChunk("kotlin/jvm/internal/");
    NoParensInChunk("DefaultConstructorMarker");
  }

  /** A short string whose characters are not parentheses holds none. */
  lemma NoParensInChunk(s: string)
    requires |s| <= 24 && forall i | 0 <= i < |s| :: s[i] != '(' && s[i] != ')'
    ensures '(' !in s && ')' !in s
  {
  }

  lemma NoParensInObject()
    ensures '(' !in ObjectTypeDescriptor && ')' !in ObjectTypeDescriptor
  {
    NoParensInChunk("java/lang/Object");
  }

  lemma ReplaceSingle(c: char, d: char, replacement: string)
    ensures ReplaceAll([c], d, replacement) == if c == d then replacement else [c]
  {
    assert [c][1..] == [];
  }

  /** Replacing the only `)` inserts before it. */
  lemma {:induction false} InsertBeforeClose(params: string, ret: string, extra: string)
    requires ')' !in params && ')' !in ret
    ensures ReplaceAll("(" + params + ")" + ret, ')', extra + ")") == "(" + params + extra + ")" + ret
  {
    var r := extra + ")";
    var a, b := "(" + params, ")" + ret;
    SplitFour("(", params, ")", ret);
    ReplaceAllConcat(a, b, ')', r);
    ReplaceAllConcat("(", params, ')', r);
    ReplaceSingle('(', ')', r);
    assert ReplaceAll(a, ')', r) == a;
    ReplaceAllConcat(")", ret, ')', r);
    ReplaceSingle(')', ')', r);
    assert ReplaceAll(b, ')', r) == r + ret;
    JoinFour(a, extra, ")", ret);
  }

  lemma SplitFour(w: string, x: string, y: string, z: string)
    ensures w + x + y + z == (w + x) + (y + z)
  {
  }

  lemma JoinFour(a: string, x: string, y: string, z: string)
    ensures a + (x + y + z) == a + x + y + z
  {
  }

  /** Replacing the only `(` inserts after it. */
  lemma {:induction false} InsertAfterOpen(body: string, owner: string)
    requires '(' !in body
    ensures ReplaceAll("(" + body, '(', "(" + owner) == "(" + owner + body
  {
    ReplaceAllConcat("(", body, '(', "(" + owner);
    ReplaceSingle('(', '(', "(" + owner);
  }

  lemma Regroup(a: string, b: string, c: string, d: string, e: string)
    ensures a + b + c + d + e == a + (b + c + d + e)
  {
  }

  lemma RegroupAfter(a: string, b: string, c: string, d: string, e: string, f: string)
    ensures a + b + (c + d + e + f) == a + b + c + d + e + f
  {
  }

  /** Both insertions on a descriptor without other parentheses. */
  lemma {:induction false} InsertBoth(params: string, ret: string, extra: string, owner: string)
    requires ')' !in params && ')' !in ret && '(' !in params && '(' !in ret && '(' !in extra
    ensures ReplaceAll(ReplaceAll("(" + params + ")" + ret, ')', extra + ")"), '(', "(" + owner)
      == "(" + owner + params + extra + ")" + ret
  {
    InsertBeforeClose(params, ret, extra);
    var body := params + extra + ")" + ret;
    Regroup("(", params, extra, ")", ret);
    InsertAfterOpen(body, owner);
    RegroupAfter("(", owner, params, extra, ")", ret);
  }

  /** On a method descriptor, the `$default` descriptor keeps the original parameters and
      return type, adds the masks and the marker as the last parameters, and adds the owner as
      the first parameter exactly for non-static methods that are not constructors. */
  lemma {:induction false} DefaultDescriptorShape(m: Method, params: string, ret: string, ownerDescriptor: string, isStatic: bool, n: nat, isInlineClassConstructor: bool)
    requires MethodDescriptor(m.descriptor, params, ret)
    ensures var d := MapDefaultMethod(m, ownerDescriptor, isStatic, n, isInlineClassConstructor).descriptor;
      var masksAndMarker := Repeat("I", MaskCount(n)) + MarkerDescriptor(m.name == "<init>", isInlineClassConstructor);
      if isStatic || m.name == "<init>" then d == "(" + params + masksAndMarker + ")" + ret
      else d == "(" + ownerDescriptor + params + masksAndMarker + ")" + ret
  {
    var isConstructor := m.name == ConstructorName;
    var extra := Repeat(IntDescriptor, MaskCount(n)) + MarkerDescriptor(isConstructor, isInlineClassConstructor);
    RepeatNoParens(MaskCount(n));
    MarkerHasNoParens(isConstructor, isInlineClassConstructor);
    if isStatic || isConstructor {
      InsertBeforeClose(params, ret, extra);
    } else {
      InsertBoth(params, ret, extra, ownerDescriptor);
    }
  }

  /** The `$default` method of a constructor is a constructor; any other is named after the
      method with the `$default` suffix. */
  lemma DefaultMethodName(m: Method, ownerDescriptor: string, isStatic: bool, n: nat, isInlineClassConstructor: bool)
    ensures var r := MapDefaultMethod(m, ownerDescriptor, isStatic, n, isInlineClassConstructor);
      if m.name == "<init>" then r.name == "<init>" else r.name == m.name + "$default"
  {
  }

  /** Constructors, and constructors of inline classes, take a DefaultConstructorMarker;
      other methods take an Object. */
  lemma MarkerChoice(isConstructor: bool, isInlineClassConstructor: bool)
    ensures MarkerDescriptor(isConstructor, isInlineClassConstructor) ==
      ObjectDescriptor(if isConstructor || isInlineClassConstructor then "kotlin/jvm/internal/" + "DefaultConstructorMarker" else "java/lang/Object")
  {
  }
}
